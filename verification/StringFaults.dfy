/** A line of a string that src/fmt.rs takes for a comment. */
module StringFaults {
  import opened Tokens
  import opened Ast
  import Lexer
  import opened Parsing
  import opened WellFormed
  import RoundTrip
  import opened Rendering
  import opened Comments
  import opened Formatting
  import opened FormatTokens
  import FormatAppend
  import opened FormatSafety
  import opened FormatSource
  import opened CommentLayout
  import opened CommentTokens
  import opened KeptComments
  import opened PrintedLines
  import opened PrintedLevels
  import opened LayoutLines
  import opened LayoutRead
  import opened Idempotence
  import opened CommentFaults

  /** Characters that stand for themselves in a string, on one line. */
  predicate IsPlainText(s: string) { '"' !in s && '\\' !in s && '\n' !in s }

  // ---- The program and its source ----

  /** `"a⏎/*b*/"` over two lines is bound to `$y`. */
  function TwoLines(a: string, b: string): string { a + "\n" + ("/*" + b + "*/") }

  function LongChain(a: string, b: string, y: string): Chain { Chain(Endpoint.Str(TwoLines(a, b)), [Bind(Bound(y))]) }

  /** What stands behind the string: its stage, the other chains and the last brace. */
  function Behind(y: string, rest: seq<Chain>): Text
  {
    W(" ", T(Arrow, W(" ", T(Token.Variable(y), NewLine(Others(rest))))))
  }

  function Others(rest: seq<Chain>): Text { Append(FmtBody(End, [], rest, 0, []), BRACE) }

  /** The second line of the string and the rest of its chain. */
  function SecondLine(b: string, y: string): string { "/*" + b + "*/" + ("\" -> $" + y) }

  function StringProgram(c: Callable, a: string, b: string, y: string, rest: seq<Chain>): string
  {
    Render(FmtHeader(PROGRAM, c, End)) + (INDENT + ("\"" + a) + "\n" + (SecondLine(b, y) + "\n" + Render(Others(rest))))
  }

  lemma BehindText(y: string, rest: seq<Chain>)
    ensures Render(Behind(y, rest)) == " -> $" + y + "\n" + Render(Others(rest))
  {
    hide Others;
    var u := Render(Others(rest));
    assert TokenText(Arrow) == "->" && TokenText(Token.Variable(y)) == "$" + y;
    var bound := T(Token.Variable(y), NewLine(Others(rest)));
    assert Render(bound) == "$" + y + ("\n" + u);
    assert Render(T(Arrow, W(" ", bound))) == "->" + (" " + Render(bound));
    assert Render(Behind(y, rest)) == " " + ("->" + (" " + ("$" + y + ("\n" + u))));
  }

  /** The source as the lexer takes it. */
  lemma SourceText(c: Callable, a: string, b: string, y: string, rest: seq<Chain>)
    ensures
      StringProgram(c, a, b, y, rest)
      == Render(FmtHeader(PROGRAM, c, End)) + (INDENT + ("\"" + (TwoLines(a, b) + ("\"" + Render(Behind(y, rest))))))
  {
    BehindText(y, rest);
    hide Others, FmtHeader, Render, Behind;
    var u := Render(Others(rest));
    assert INDENT + ("\"" + a) + "\n" + (SecondLine(b, y) + "\n" + u)
           == INDENT + ("\"" + (TwoLines(a, b) + ("\"" + (" -> $" + y + "\n" + u))));
  }

  // ---- How it is parsed ----

  lemma {:induction false} RawString(acc: string, v: string, rest: string)
    requires '"' !in v && '\\' !in v
    ensures Lexer.StringBody(acc, v + ("\"" + rest)) == Lexer.Scanned(acc + v, rest)
    decreases |v|
  {
    var s := v + ("\"" + rest);
    if v == [] {
      assert s == "\"" + rest && s[1..] == rest && acc + v == acc;
    } else {
      assert s[0] == v[0] && s[1..] == v[1..] + ("\"" + rest);
      RawString(acc + [v[0]], v[1..], rest);
      assert acc + [v[0]] + v[1..] == acc + v;
    }
  }

  lemma RawLexed(v: string, rest: string)
    requires '"' !in v && '\\' !in v
    ensures Lexer.LexStep("\"" + (v + ("\"" + rest))) == Lexer.Emit(Token.Str(v), rest)
  {
    var s := "\"" + (v + ("\"" + rest));
    RawString([], v, rest);
    assert s[1..] == v + ("\"" + rest) && [] + v == v;
    hide Lexer.StringBody;
  }

  lemma {:induction false} LexedCloses(s: string)
    requires Lexer.Lex(s).SomeTokens?
    ensures !LeavesOpen(s)
    decreases |s|
  {
    if s != [] {
      match Lexer.LexStep(s)
      case Bad =>
      case Skip(rest) => LexedCloses(rest);
      case Emit(_, rest) => LexedCloses(rest);
    }
  }

  lemma {:induction false} TokensThen(t: Text, ts: seq<Token>, us: seq<Token>)
    requires ListOf(ts) == TokensOf(t, Nil)
    ensures ListOf(ts + us) == TokensOf(t, ListOf(us))
  {
    match t
    case End => assert ts + us == us;
    case T(token, rest) =>
      assert ts != [] && (ts + us)[1..] == ts[1..] + us;
      TokensThen(rest, ts[1..], us);
    case W(gap, rest) => TokensThen(rest, ts, us);
  }

  /** Lexing whole lines and then more text. */
  lemma WholeThen(t: Text, s: string)
    requires Whole(true, t) && EndsLine(Render(t))
    ensures
      var r, after := Lexer.Lex(Render(t) + s), Lexer.Lex(s);
      && (r.SomeTokens? <==> after.SomeTokens?)
      && (r.SomeTokens? ==> ListOf(r.tokens) == TokensOf(t, ListOf(after.tokens)))
  {
    RenderedLexes(t);
    LexedCloses(Render(t));
    hide Lexer.Lex, LeavesOpen;
    LinesLexed(Render(t), s);
    if Lexer.Lex(s).SomeTokens? { TokensThen(t, Lexer.Lex(Render(t)).tokens, Lexer.Lex(s).tokens); }
  }

  /** The whole condition on the program: its string holds plain text and nothing behind it holds a quote. */
  ghost predicate IsStringProgram(c: Callable, a: string, b: string, y: string, rest: seq<Chain>)
  {
    && WfDecl(Program(c)) && CallableApart(c) && IsFlat(HeaderLevel(BOTTOM, c))
    && c.chains == [LongChain(a, b, y)] + rest && rest != []
    && IsPlainText(a) && IsPlainText(b) && !HasBlockEnd(b) && '"' !in Render(Others(rest))
  }

  lemma RestIsWell(c: Callable, a: string, b: string, y: string, rest: seq<Chain>)
    requires IsStringProgram(c, a, b, y, rest)
    ensures IsWord(y) && WfChain(LongChain(a, b, y)) && forall i :: 0 <= i < |rest| ==> WfChain(rest[i])
  {
    ItsChains(c, LongChain(a, b, y), rest);
    hide CallableApart, HeaderLevel, WfCallable, HasBlockEnd, Others, Render;
    assert WfStage(LongChain(a, b, y).stages[0]);
  }

  lemma OthersWhole(strict: bool, rest: seq<Chain>)
    requires forall i :: 0 <= i < |rest| ==> WfChain(rest[i])
    ensures Whole(strict, FmtBody(End, [], rest, 0, [])) && Whole(strict, Others(rest))
    ensures TokensOf(Others(rest), Nil) == TkChains(rest, Cons(RBrace, Nil))
  {
    EmptyWhole(strict);
    NoRows();
    BodyWhole(strict, End, [], rest, 0, []);
    BodyTokens(End, [], rest, 0, [], Cons(RBrace, Nil));
    BraceWhole(strict);
    AppendWhole(strict, FmtBody(End, [], rest, 0, []), BRACE);
    TokensAppend(FmtBody(End, [], rest, 0, []), BRACE, Nil);
    FormatTokens.Unfold();
    assert rest[0..] == rest;
    hide FmtBody, WfChain, Whole, TokensOf, TkChains;
  }

  lemma BehindSafe(y: string, rest: seq<Chain>)
    requires IsWord(y) && forall i :: 0 <= i < |rest| ==> WfChain(rest[i])
    ensures Safe(Behind(y, rest))
    ensures TokensOf(Behind(y, rest), Nil) == Cons(Arrow, Cons(Token.Variable(y), TkChains(rest, Cons(RBrace, Nil))))
  {
    OthersWhole(true, rest);
    hide Others, Laid, TokensOf, WfChain, Ends;
    StageThen(y, Others(rest));
  }

  lemma StageThen(y: string, u: Text)
    requires IsWord(y) && Safe(u)
    ensures
      var t := W(" ", T(Arrow, W(" ", T(Token.Variable(y), NewLine(u)))));
      Safe(t) && TokensOf(t, Nil) == Cons(Arrow, Cons(Token.Variable(y), TokensOf(u, Nil)))
  {
    FormatSafety.Unfold(true);
    FormatTokens.Unfold();
    hide Laid, Runs, IsGap, IsWord, TokensOf;
  }

  /** The tokens behind the header. */
  lemma BodyLexed(a: string, b: string, y: string, rest: seq<Chain>)
    requires IsWord(y) && (forall i :: 0 <= i < |rest| ==> WfChain(rest[i])) && IsPlainText(a) && IsPlainText(b)
    ensures
      var r := Lexer.Lex(INDENT + ("\"" + (TwoLines(a, b) + ("\"" + Render(Behind(y, rest))))));
      && r.SomeTokens?
      && ListOf(r.tokens) == TkChains([LongChain(a, b, y)] + rest, Cons(RBrace, Nil))
  {
    var tail := Behind(y, rest);
    BehindSafe(y, rest);
    RenderedLexes(tail);
    ChainTokens(a, b, y, rest);
    PlainLines(a, b);
    hide *;
    IndentedString(TwoLines(a, b), Render(tail));
  }

  lemma PlainLines(a: string, b: string)
    requires IsPlainText(a) && IsPlainText(b)
    ensures '"' !in TwoLines(a, b) && '\\' !in TwoLines(a, b)
  {}

  lemma IndentedString(v: string, tail: string)
    requires '"' !in v && '\\' !in v && Lexer.Lex(tail).SomeTokens?
    ensures
      var r := Lexer.Lex(INDENT + ("\"" + (v + ("\"" + tail))));
      r.SomeTokens? && ListOf(r.tokens) == Cons(Token.Str(v), ListOf(Lexer.Lex(tail).tokens))
  {
    RawLexed(v, tail);
    BlankSkips(INDENT);
    var s := "\"" + (v + ("\"" + tail));
    assert s != [];
    hide Lexer.LexStep, Skips;
    GapLexed(INDENT, s);
    var ts := Lexer.Lex(tail).tokens;
    assert ([Token.Str(v)] + ts)[1..] == ts;
  }

  lemma ChainTokens(a: string, b: string, y: string, rest: seq<Chain>)
    ensures
      TkChains([LongChain(a, b, y)] + rest, Cons(RBrace, Nil))
      == Cons(Token.Str(TwoLines(a, b)), Cons(Arrow, Cons(Token.Variable(y), TkChains(rest, Cons(RBrace, Nil)))))
  {
    var chains := [LongChain(a, b, y)] + rest;
    assert chains[0] == LongChain(a, b, y) && chains[1..] == rest;
    var stages: seq<Stage> := [Bind(Bound(y))];
    assert stages[1..] == [];
    hide TwoLines;
    var z := TkChains(rest, Cons(RBrace, Nil));
    assert TkStages(stages, z) == Cons(Arrow, Cons(Token.Variable(y), z));
  }

  lemma StringProgramParsed(c: Callable, a: string, b: string, y: string, rest: seq<Chain>)
    requires IsStringProgram(c, a, b, y, rest)
    ensures Parse(StringProgram(c, a, b, y, rest)) == Some(ProgramOf(c, c.chains))
  {
    var header, chains := FmtHeader(PROGRAM, c, End), c.chains;
    SourceText(c, a, b, y, rest);
    RestIsWell(c, a, b, y, rest);
    BodyLexed(a, b, y, rest);
    HeaderWhole(true, PROGRAM, c);
    var line := HeaderIsLine(c);
    var s := INDENT + ("\"" + (TwoLines(a, b) + ("\"" + Render(Behind(y, rest)))));
    ModuleTokensAre(c);
    assert WfModule(ProgramOf(c, chains));
    hide StringProgram, IsStringProgram, FmtHeader, TkChains, TwoLines, Behind, Lexer.Lex, ParseModule, Render, Whole,
         TokensOf, WfModule,
         TkDecls, ProgramOf;
    WholeThen(header, s);
    RoundTrip.ModuleParsed(ProgramOf(c, chains), [false]);
  }

  lemma ModuleTokensAre(c: Callable)
    ensures ProgramOf(c, c.chains).declarations == [Program(c)]
    ensures TkDecls([Program(c)], [false]) == TokensOf(FmtHeader(PROGRAM, c, End), TkChains(c.chains, Cons(RBrace, Nil)))
  {
    HeaderTokens(PROGRAM, c, TkChains(c.chains, Cons(RBrace, Nil)));
    hide FmtHeader, TokensOf, TkChains, TkParams, TkInputs, TkPortOrList;
    FormatTokens.Unfold();
    var ds := [Program(c)];
    assert ds[1..] == [] && [false][1..] == [];
  }

  /** The header is one line. */
  lemma HeaderIsLine(c: Callable) returns (line: string)
    requires WfDecl(Program(c))
    ensures Render(FmtHeader(PROGRAM, c, End)) == line + "\n" && '\n' !in line
  {
    var header := FmtHeader(PROGRAM, c, End);
    HeaderWhole(false, PROGRAM, c);
    HeaderThrough(c);
    hide FmtHeader, WfCallable, Through, Laid;
    FirstLine(BOTTOM, header);
    line := LineText(header);
    assert Render(End) == "" && line + "\n" + "" == line + "\n";
  }

  lemma HeaderThrough(c: Callable)
    requires WfDecl(Program(c))
    ensures Through(BOTTOM, FmtHeader(PROGRAM, c, End)) == Some(Line(TokenLevel(HeaderLevel(BOTTOM, c), LBrace), None, End))
  {
    SignatureLevel(BOTTOM, c, End);
    FormatAppend.Unfold();
    PrintedLevels.Unfold();
    hide FmtPortOrList, FmtInputs, FmtParams, HeaderLevel, WfCallable, Through;
  }

  // ---- What is collected of the source ----

  lemma {:induction false} InString(l: Level, s: string)
    requires '"' !in s && '\\' !in s
    ensures HashAt(true, false, s) == |s| && Depths(l, true, false, s) == l
    decreases |s|
  {
    if s != [] {
      assert s[0] != '"' && s[0] != '\\';
      InString(l, s[1..]);
    }
  }

  lemma OpenedString(l: Level, a: string)
    requires IsPlainText(a)
    ensures
      var line := INDENT + ("\"" + a);
      && CodeOf(line) == line && RemarkOf(line) == None && Depths(l, false, false, line) == l
      && TrimStart(line) == "\"" + a && Trim(line) != "" && Trim(line)[0] == '"'
  {
    var code := "\"" + a;
    assert code[1..] == a;
    InString(l, a);
    assert HashAt(false, false, code) == |code|;
    assert code[..|code|] == code;
    IndentSpaces();
    SpacesSplit(INDENT, code);
    PlainDepths(l, INDENT, code);
    StartsItself(code);
    TrimWhite(INDENT, code);
    hide HashAt, Depths;
    TrimEndFirst(code);
  }

  lemma {:induction false} TrimEndFirst(s: string)
    requires s != [] && !IsWhite(s[0])
    ensures TrimEnd(s) != [] && TrimEnd(s)[0] == s[0]
    decreases |s|
  {
    if IsWhite(s[|s| - 1]) { TrimEndFirst(s[..|s| - 1]); }
  }

  /** The first line of the string starts a chain. */
  lemma StringLineStep(r: Reader, a: string)
    requires IsBody(r) && IsFlat(r.level) && IsPlainText(a)
    ensures Step(false, r, INDENT + ("\"" + a)) == Taken(r, None)
  {
    var line := INDENT + ("\"" + a);
    OpenedString(r.level, a);
    var text := Trim(line);
    hide CodeOf, RemarkOf, Depths, TrimStart, Trim, IsPlainText;
    assert !StartsWith("\"" + a, "/*") by { NotThere("\"" + a, "/*"); }
    NotThere(text, "->");
    NotThere(text, "}");
  }

  lemma NotThere(s: string, w: string)
    requires s != [] && w != [] && s[0] != w[0]
    ensures !StartsWith(s, w)
  {
    assert |w| <= |s| ==> s[..|w|][0] == s[0];
  }

  lemma SecondLineIs(b: string, y: string)
    requires IsPlainText(b) && IsWord(y)
    ensures
      var line := SecondLine(b, y);
      && IsLine(line) && '\n' !in line && StartsWith(line, "/*") && HasBlockEnd(line) && AreComments([line])
      && Again(false, INDENT, [line]) == [line]
  {
    var line := SecondLine(b, y);
    assert line[..2] == "/*" && line[0] == '/';
    assert line[2 + |b|] == '*' && line[2 + |b| + 1] == '/';
    assert line[|line| - 1] == y[|y| - 1] && IsWordChar(y[|y| - 1]);
    HashFirst(line);
    BehindOne(false, line);
    StartsKept(line, "/*");
    assert [line][1..] == [];
  }

  /** The reader behind the two lines of the string. */
  function BehindString(r: Reader, b: string, y: string): Reader
    requires r.open.Some?
  {
    Taken(r, None).(body := [SecondLine(b, y)])
  }

  lemma StringRead(r: Reader, a: string, b: string, y: string, k: string)
    requires IsBody(r) && IsFlat(r.level) && r.body == [] && IsPlainText(a) && IsPlainText(b) && IsWord(y)
    ensures
      ReadLines(false, r, INDENT + ("\"" + a) + "\n" + (SecondLine(b, y) + "\n" + k))
        == ReadLines(false, BehindString(r, b, y), k)
  {
    var line := SecondLine(b, y);
    SecondLineIs(b, y);
    StringLineStep(r, a);
    assert '\n' !in INDENT + ("\"" + a);
    hide Step, HasBlockEnd, SecondLine, IsPlainText;
    LineThen(false, r, INDENT + ("\"" + a), line + "\n" + k);
    var r1 := Taken(r, None);
    LineThen(false, r1, line, k);
    FirstStep(false, r1, "", line);
    assert "" + line == line && r1.body + [line] == [line];
  }

  lemma HeaderThen(c: Callable, s: string)
    requires WfDecl(Program(c))
    ensures
      ReadLines(false, Start([Program(c)]), Render(FmtHeader(PROGRAM, c, End)) + s)
      == ReadLines(false, Opened(Start([Program(c)]), c), s)
  {
    var q, header := Start([Program(c)]), FmtHeader(PROGRAM, c, End);
    var line := HeaderIsLine(c);
    ReadsNothing(false, q);
    hide FmtHeader, WfCallable, Opened, Reads, Step;
    HeaderReads(false, q, End, q, PROGRAM, c);
    assert Append(End, header) == header;
    ReadsAll(false, q, header, Opened(q, c));
    LineThen(false, q, line, "");
    LineThen(false, q, line, s);
    assert line + "\n" + "" == line + "\n";
    assert ReadLines(false, Step(false, q, line), "") == Step(false, q, line);
  }

  lemma OthersRead(r: Reader, rest: seq<Chain>)
    requires IsBody(r) && IsFlat(r.level) && !r.blank && forall i :: 0 <= i < |rest| ==> WfChain(rest[i])
    ensures
      var s := Marks(false, r, rest, [], |rest|);
      ReadText(false, r, Others(rest)).layout == s.layout && ReadText(false, r, Others(rest)).next == s.next
  {
    ReadsNothing(false, r);
    NoRows();
    NoMarks(r, rest);
    hide WfChain, FmtBody, Reads, Marks, Before;
    BodyReads(false, r, End, r, [], rest, [], 0);
    MarksKeep(false, r, rest, [], |rest|);
    var s := Marks(false, r, rest, [], |rest|);
    BraceReads(false, r, FmtBody(End, [], rest, 0, []), s);
    ReadsAll(false, r, Others(rest), s.(open := None, blank := false, body := [], level := TokenLevel(s.level, RBrace)));
  }

  /** A comment for the second chain alone. */
  function Second(line: string): seq<ChainComments> { [BARE, ChainComments(false, [line], None)] }

  lemma {:induction false} ShiftedMarks(r: Reader, x: Chain, rest: seq<Chain>, line: string, n: nat)
    requires r.open.Some? && r.level.brace == 1 && IsFlat(r.level) && !r.blank && r.body == [] && !IsLongStruct(x.source)
    requires HasChain(r.layout, r.open.value, r.chain) && Again(false, INDENT, [line]) == [line] && 0 < n <= |rest|
    ensures
      Marks(false, Taken(r, None).(body := [line]), rest, [], n) == Marks(false, r, [x] + rest, Second(line), n + 1)
  {
    var all, r1 := [x] + rest, Taken(r, None);
    assert Again(false, INDENT, []) == [];
    hide IsLongStruct, Again;
    if n > 1 {
      ShiftedMarks(r, x, rest, line, n - 1);
      assert all[n] == rest[n - 1];
      assert ChainAt(Second(line), n) == BARE;
    } else {
      assert all[0] == x && all[1] == rest[0];
      assert Ready(r, 0, BARE) == r;
      assert Marks(false, r, all, Second(line), 0) == r;
      assert Marks(false, r, all, Second(line), 1) == r1;
      assert [] + [line] == [line] && [line] + [] == [line];
      assert Ready(r1, 1, ChainAt(Second(line), 1)) == r1.(body := [line]);
      assert Marks(false, r1.(body := [line]), rest, [], 0) == r1.(body := [line]);
      assert Ready(r1.(body := [line]), 0, BARE) == r1.(body := [line]);
    }
  }

  /** The second chain has a comment, the others none. */
  ghost predicate IsSecondOnly(comments: seq<ChainComments>, line: string)
  {
    && ChainAt(comments, 1) == ChainComments(false, [line], None)
    && forall k :: 0 <= k && k != 1 ==> ChainAt(comments, k) == BARE
  }

  lemma SecondIsOnly(comments: seq<ChainComments>, all: seq<Chain>, l: Level, line: string)
    requires |all| == |comments| >= 2 && IsFlat(l) && Again(false, INDENT, [line]) == [line]
    requires forall k :: 0 <= k < |comments| ==> comments[k] == ReadChain(false, l, all[k], ChainAt(Second(line), k), k)
    ensures IsSecondOnly(comments, line)
  {
    assert Again(false, INDENT, []) == [];
    hide IsLongStruct;
  }

  /** One declaration with `n` chains and no comments. */
  predicate IsBare(layout: Layout, n: nat)
  {
    && |layout| == 1 && layout[0].leading == [] && |layout[0].chains| == n
    && forall k :: 0 <= k < n ==> layout[0].chains[k] == BARE
  }

  lemma StringMarks(r: Reader, all: seq<Chain>, line: string) returns (comments: seq<ChainComments>)
    requires IsBody(r) && IsFlat(r.level) && r.open == Some(0) && r.chain == 0 && r.body == [] && !r.blank && |all| >= 2
    requires IsBare(r.layout, |all|) && Again(false, INDENT, [line]) == [line]
    ensures
      var s := Marks(false, r, all, Second(line), |all|);
      s.next == r.next && s.layout == [DeclComments([], comments)]
    ensures IsSecondOnly(comments, line)
  {
    hide Marks;
    MarksRow(false, r, all, Second(line), |all|);
    MarksKeep(false, r, all, Second(line), |all|);
    var s := Marks(false, r, all, Second(line), |all|);
    comments := s.layout[0].chains;
    SecondIsOnly(comments, all, r.level, line);
    assert s.layout == [DeclComments([], comments)];
  }

  /** The text behind the header. */
  function BehindHeader(a: string, b: string, y: string, rest: seq<Chain>): string
  {
    INDENT + ("\"" + a) + "\n" + (SecondLine(b, y) + "\n" + Render(Others(rest)))
  }

  lemma BehindStringIs(r: Reader, b: string, y: string)
    requires IsBody(r)
    ensures var s := BehindString(r, b, y); IsBody(s) && s.level == r.level && !s.blank && s.next == r.next
  {}

  lemma StringCollected(r: Reader, a: string, b: string, y: string, rest: seq<Chain>) returns (comments: seq<ChainComments>)
    requires IsBody(r) && IsFlat(r.level) && r.open == Some(0) && r.chain == 0 && r.body == [] && !r.blank && rest != []
    requires IsBare(r.layout, |rest| + 1) && IsWord(y) && IsPlainText(a) && IsPlainText(b)
    requires forall i :: 0 <= i < |rest| ==> WfChain(rest[i])
    ensures IsSecondOnly(comments, SecondLine(b, y))
    ensures
      var s := ReadLines(false, r, BehindHeader(a, b, y, rest));
      && s.next == r.next
      && s.layout == [DeclComments([], comments)]
  {
    var line, x := SecondLine(b, y), LongChain(a, b, y);
    SecondLineIs(b, y);
    assert !IsLongStruct(x.source);
    var all := [x] + rest;
    BehindStringIs(r, b, y);
    assert BehindString(r, b, y) == Taken(r, None).(body := [line]) && HasChain(r.layout, 0, 0);
    hide Render, Others, SecondLine, WfChain, HasBlockEnd, IsPlainText, ReadLines, Marks, IsSecondOnly, IsLongStruct,
         IsWord, Again,
         AreComments, LongChain, BehindString, Taken, HasChain, StartsWith, IsLine, IsBare;
    StringRead(r, a, b, y, Render(Others(rest)));
    OthersRead(BehindString(r, b, y), rest);
    ShiftedMarks(r, x, rest, line, |rest|);
    comments := StringMarks(r, all, line);
  }

  lemma StringLayout(c: Callable, a: string, b: string, y: string, rest: seq<Chain>) returns (comments: seq<ChainComments>)
    requires IsStringProgram(c, a, b, y, rest)
    ensures IsSecondOnly(comments, SecondLine(b, y))
    ensures ReadLayout(StringProgram(c, a, b, y, rest), [Program(c)]) == [DeclComments([], comments)]
  {
    var r := Opened(Start([Program(c)]), c);
    OpenedIs(c);
    RestIsWell(c, a, b, y, rest);
    assert IsBare(r.layout, |rest| + 1);
    assert |c.chains| == |rest| + 1 && rest != [] && IsPlainText(a) && IsPlainText(b);
    assert StringProgram(c, a, b, y, rest) == Render(FmtHeader(PROGRAM, c, End)) + BehindHeader(a, b, y, rest);
    HeaderThen(c, BehindHeader(a, b, y, rest));
    hide StringProgram, BehindHeader, FmtHeader, Opened, Start, Render, WfChain, WfDecl, CallableApart, HeaderLevel,
         IsPlainText, ReadLines,
         IsSecondOnly, IsStringProgram, NoComments, IsWord;
    comments := StringCollected(r, a, b, y, rest);
  }

  // ---- The formatted text ----

  lemma {:induction false} BodyShifts(acc: Text, group: seq<Row>, x: Chain, rest: seq<Chain>, i: nat)
    requires i <= |rest|
    ensures FmtBody(acc, group, [x] + rest, i + 1, []) == FmtBody(acc, group, rest, i, [])
    decreases |rest| - i
  {
    hide IsMultiline, FmtMultilineChain, Flush;
    if i < |rest| {
      var all := [x] + rest;
      assert all[i + 1] == rest[i];
      if IsMultiline(rest[i]) {
        BodyShifts(Append(Flush(acc, group), FmtMultilineChain(rest[i], None, End)), [], x, rest, i + 1);
      } else {
        BodyShifts(acc, group + [Row(rest[i], None)], x, rest, i + 1);
      }
    }
  }

  /** The comment stands between the first chain and the others. */
  lemma BodyWithSecond(acc: Text, x: Chain, rest: seq<Chain>, comments: seq<ChainComments>, line: string)
    requires rest != [] && !IsMultiline(x) && IsSecondOnly(comments, line)
    ensures
      FmtBody(acc, [], [x] + rest, 0, comments)
      == Append(Append(Flush(acc, [Row(x, None)]), Remarks(INDENT, [line])), FmtBody(End, [], rest, 0, []))
  {
    var all, group := [x] + rest, [Row(x, None)];
    var acc1 := Append(Flush(acc, group), Remarks(INDENT, [line]));
    assert [] + group == group && all[0] == x && all[1] == rest[0];
    hide FmtMultilineChain, Remarks, Flush, IsMultiline;
    assert Break(acc, group, 1, ChainAt(comments, 1)) == acc1;
    assert FmtBody(acc, [], all, 0, comments) == FmtBody(acc, group, all, 1, comments);
    BehindSecond(acc, acc1, group, all, comments);
    BodyBehind(acc1, End, [], all, 1);
    AppendEnd(acc1);
    BodyShifts(End, [], x, rest, 0);
  }

  lemma BehindSecond(acc: Text, acc1: Text, group: seq<Row>, all: seq<Chain>, comments: seq<ChainComments>)
    requires |all| >= 2 && Breaks(ChainAt(comments, 1)) && ChainAt(comments, 1).trailing.None?
    requires acc1 == Break(acc, group, 1, ChainAt(comments, 1)) && forall k :: 2 <= k ==> ChainAt(comments, k) == BARE
    ensures FmtBody(acc, group, all, 1, comments) == FmtBody(acc1, [], all, 1, [])
  {
    hide FmtMultilineChain, Flush, IsMultiline, Break;
    if IsMultiline(all[1]) {
      BodyFrom(Append(Flush(acc1, []), FmtMultilineChain(all[1], None, End)), [], all, 2, comments, []);
    } else {
      BodyFrom(acc1, [] + [Row(all[1], None)], all, 2, comments, []);
    }
  }

  lemma {:induction false} NoQuote(acc: string, s: string)
    requires '"' !in s
    ensures Lexer.StringBody(acc, s).NoScan?
    decreases |s|
  {
    if s != [] {
      assert s[0] != '"';
      if s[0] == '\\' {
        if |s| >= 2 { NoQuote(acc + Lexer.Unescape(s[1]), s[2..]); }
      } else {
        NoQuote(acc + [s[0]], s[1..]);
      }
    }
  }

  /** A quote that nothing closes. */
  lemma OpenQuote(b: string, s: string)
    requires !HasBlockEnd(b) && '"' !in s
    ensures Lexer.Lex(INDENT + ("/*" + b + "*/" + ("\"" + s))) == Lexer.NoTokens
  {
    var u, gap := "\"" + s, INDENT + ("/*" + b + "*/");
    assert u[1..] == s;
    NoQuote([], s);
    assert Lexer.LexStep(u) == Lexer.Bad;
    BlockSkips(b);
    assert INDENT + ("/*" + b + "*/" + u) == gap + u;
    hide Lexer.LexStep, Skips;
    GapLexed(gap, u);
  }

  lemma BlockSkips(b: string)
    requires !HasBlockEnd(b)
    ensures Skips(INDENT + ("/*" + b + "*/"))
  {
    var s := "/*" + b + "*/";
    assert s[2..] == b + "*/" + "";
    BlockEnds(b, "");
    assert Skips("");
    assert Skips(s);
    BlanksSkip(INDENT, s);
  }

  lemma PrintedPrefix(c: Callable, x: Chain)
    requires WfDecl(Program(c)) && CallableApart(c) && WfChain(x)
    ensures var t := Flush(FmtHeader(PROGRAM, c, End), [Row(x, None)]); Whole(true, t) && EndsLine(Render(t))
  {
    var header, g := FmtHeader(PROGRAM, c, End), [Row(x, None)];
    HeaderWhole(true, PROGRAM, c);
    hide FmtHeader, WfCallable, CallableApart, WfChain;
    assert WfRows(g);
    FlushWhole(true, header, g);
    assert g[1..] == [];
    var lines := W(INDENT, OneLine(x, NewLine(End)));
    assert FmtGroup(g, g, End) == lines;
    RenderAppend(header, lines);
    OneLineText(x, End);
    hide OneLine, Whole;
    assert Render(lines) == INDENT + Render(OneLine(x, NewLine(End)));
  }

  lemma PrintedString(c: Callable, a: string, b: string, y: string, rest: seq<Chain>, comments: seq<ChainComments>)
    requires rest != [] && IsSecondOnly(comments, SecondLine(b, y))
    ensures
      Render(FmtModule(ProgramOf(c, [LongChain(a, b, y)] + rest), [DeclComments([], comments)]))
      == Render(Flush(FmtHeader(PROGRAM, c, End), [Row(LongChain(a, b, y), None)]))
         + (INDENT + ("/*" + b + "*/" + ("\"" + (" -> $" + y + "\n" + Render(Others(rest))))))
  {
    var header, x, line := FmtHeader(PROGRAM, c, End), LongChain(a, b, y), SecondLine(b, y);
    var flushed, body := Flush(header, [Row(x, None)]), FmtBody(End, [], rest, 0, []);
    assert !IsMultiline(x) by { OneStage(a, b, y); }
    assert line[..2] == "/*";
    RemarkText(line);
    LineJoined(b, y, Render(Others(rest)));
    hide FmtHeader, FmtBody, Render, Flush, Remarks, LongChain, SecondLine, IsSecondOnly;
    PrintedProgram(c, [x] + rest, comments);
    BodyWithSecond(header, x, rest, comments, line);
    var acc1 := Append(flushed, Remarks(INDENT, [line]));
    LayoutRead.AppendAssociative(acc1, body, BRACE);
    RenderAppend(acc1, Others(rest));
    RenderAppend(flushed, Remarks(INDENT, [line]));
    assert Render(End) == "" by { EmptyText(); }
    hide *;
    Sum(Render(flushed), Render(Remarks(INDENT, [line])), INDENT + line + "\n" + "", Render(Others(rest)),
        INDENT + ("/*" + b + "*/" + ("\"" + (" -> $" + y + "\n" + Render(Others(rest))))));
  }

  lemma OneStage(a: string, b: string, y: string)
    ensures !IsMultiline(LongChain(a, b, y))
  {
    var stages: seq<Stage> := [Bind(Bound(y))];
    assert stages[1..] == [];
    assert !HasMatch(stages);
  }

  lemma EmptyText()
    ensures Render(End) == ""
  {}

  lemma Sum(p: string, q: string, q': string, u: string, all: string)
    requires q == q' && q' + u == all
    ensures p + q + u == p + all
  {}

  lemma LineJoined(b: string, y: string, u: string)
    ensures
      INDENT + SecondLine(b, y) + "\n" + "" + u == INDENT + ("/*" + b + "*/" + ("\"" + (" -> $" + y + "\n" + u)))
  {}

  /**
   * The second line of this string starts and ends a block comment for the formatter. It is written again before
   * the next chain, where its quote is left open: the formatted text does not parse.
   */
  lemma LinesOfStringsAreTakenForComments(c: Callable, a: string, b: string, y: string, rest: seq<Chain>)
    requires IsStringProgram(c, a, b, y, rest)
    ensures
      var source := StringProgram(c, a, b, y, rest);
      Parse(source) == Some(ProgramOf(c, c.chains)) && FormatText(source).Some? && Parse(FormatText(source).value) == None
  {
    assert rest != [] && c.chains == [LongChain(a, b, y)] + rest;
    hide *;
    StringProgramParsed(c, a, b, y, rest);
    ModuleTokensAre(c);
    var comments := StringLayout(c, a, b, y, rest);
    PrintedString(c, a, b, y, rest, comments);
    PrintedIsRefused(c, a, b, y, rest);
    IsRefused(StringProgram(c, a, b, y, rest), ProgramOf(c, c.chains), [DeclComments([], comments)]);
  }

  lemma PrintedIsRefused(c: Callable, a: string, b: string, y: string, rest: seq<Chain>)
    requires IsStringProgram(c, a, b, y, rest)
    ensures
      Lexer.Lex(
        Render(Flush(FmtHeader(PROGRAM, c, End), [Row(LongChain(a, b, y), None)]))
        + (INDENT + ("/*" + b + "*/" + ("\"" + (" -> $" + y + "\n" + Render(Others(rest)))))))
      == Lexer.NoTokens
  {
    var t, s := Flush(FmtHeader(PROGRAM, c, End), [Row(LongChain(a, b, y), None)]), " -> $" + y + "\n" + Render(Others(rest));
    RestIsWell(c, a, b, y, rest);
    assert '"' !in s by { assert '"' !in y; }
    assert !HasBlockEnd(b);
    assert WfDecl(Program(c)) && CallableApart(c);
    hide *;
    PrintedPrefix(c, LongChain(a, b, y));
    OpenQuote(b, s);
    WholeThen(t, INDENT + ("/*" + b + "*/" + ("\"" + s)));
  }

  lemma IsRefused(source: string, m: Module, layout: Layout)
    requires Parse(source) == Some(m) && ReadLayout(source, m.declarations) == layout
    requires Lexer.Lex(Render(FmtModule(m, layout))) == Lexer.NoTokens
    ensures FormatText(source).Some? && Parse(FormatText(source).value) == None
  {
    hide ReadLayout, Render, FmtModule, Lexer.Lex, ParseModule;
  }
}
