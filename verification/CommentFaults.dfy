/** Two kinds of comments that src/fmt.rs does not keep in their place. */
module CommentFaults {
  import opened Tokens
  import opened Ast
  import Lexer
  import opened Parsing
  import opened WellFormed
  import RoundTrip
  import opened Rendering
  import opened Comments
  import opened Formatting
  import opened FormatTokens
  import opened FormatSafety
  import opened FormatSource
  import opened Annotations
  import opened FormatAppend
  import opened CommentLayout
  import opened KeptComments
  import opened PrintedLines
  import opened PrintedLevels
  import opened LayoutLines
  import opened LayoutRead
  import opened Idempotence

  // ---- A text with one program ----

  const BRACE: Text := T(RBrace, NewLine(End))

  /** A program with the given text for its body. */
  function ProgramText(c: Callable, body: Text): Text { Append(Append(FmtHeader(PROGRAM, c, End), body), BRACE) }

  function ProgramOf(c: Callable, chains: seq<Chain>): Module { Module([Program(c.(chains := chains))]) }

  lemma ProgramIsWellFormed(c: Callable, chains: seq<Chain>)
    requires WfDecl(Program(c)) && forall i :: 0 <= i < |chains| ==> WfChain(chains[i])
    ensures WfModule(ProgramOf(c, chains))
  {
    hide WfChain, WfParam, WfPorts;
  }

  lemma ProgramParsed(c: Callable, body: Text, chains: seq<Chain>)
    requires WfDecl(Program(c)) && CallableApart(c) && (forall i :: 0 <= i < |chains| ==> WfChain(chains[i]))
    requires Whole(true, body) && TokensOf(body, Cons(RBrace, Nil)) == TkChains(chains, Cons(RBrace, Nil))
    ensures Parse(Render(ProgramText(c, body))) == Some(ProgramOf(c, chains))
  {
    var m := ProgramOf(c, chains);
    var t := ProgramText(c, body);
    ProgramIsWellFormed(c, chains);
    ProgramWhole(c, body);
    ProgramTokens(c, body, chains);
    assert [false][1..] == [];
    hide WfModule, Whole, TokensOf, ProgramText, TkDecls, Lexer.Lex, ParseModule, WfChain, Render, CallableApart,
         WfCallable;
    RenderedLexes(t) by { WholeIsSafe(t); }
    RoundTrip.ModuleParsed(m, [false]);
  }

  lemma WholeIsSafe(t: Text)
    requires Whole(true, t)
    ensures Safe(t)
  {}

  lemma ProgramWhole(c: Callable, body: Text)
    requires WfDecl(Program(c)) && CallableApart(c) && Whole(true, body)
    ensures Whole(true, ProgramText(c, body))
  {
    hide FmtHeader, CallableApart, WfCallable, Whole;
    HeaderWhole(true, PROGRAM, c);
    BraceWhole(true);
    AppendWhole(true, FmtHeader(PROGRAM, c, End), body);
    AppendWhole(true, Append(FmtHeader(PROGRAM, c, End), body), BRACE);
  }

  lemma ProgramTokens(c: Callable, body: Text, chains: seq<Chain>)
    requires TokensOf(body, Cons(RBrace, Nil)) == TkChains(chains, Cons(RBrace, Nil))
    ensures TokensOf(ProgramText(c, body), Nil) == TkDecls(ProgramOf(c, chains).declarations, [false])
  {
    var header := FmtHeader(PROGRAM, c, End);
    FormatTokens.Unfold();
    TokensAppend(Append(header, body), BRACE, Nil);
    TokensAppend(header, body, Cons(RBrace, Nil));
    HeaderTokens(PROGRAM, c, TkChains(chains, Cons(RBrace, Nil)));
    hide FmtHeader, TokensOf, TkChains, TkParams, TkInputs, TkPortOrList;
    var ds := ProgramOf(c, chains).declarations;
    assert ds[1..] == [] && [false][1..] == [];
  }

  /** The comments of the program are those that are read in its body. */
  lemma ProgramLayout(c: Callable, n: nat, body: Text, s: Reader)
    requires WfDecl(Program(c)) && |c.chains| == n
    requires Reads(false, Opened(Start([Program(c)]), c), body, s) && IsBody(s) && s.next == 1 && |s.layout| == 1
             && Whole(false, body)
    requires s.level == Opened(Start([Program(c)]), c).level
    ensures ReadLayout(Render(ProgramText(c, body)), [Program(c)]) == s.layout
  {
    var ds := [Program(c)];
    var q := Start(ds);
    ReadsNothing(false, q);
    hide Reads, FmtHeader, WfCallable, Opened, Whole;
    HeaderReads(false, q, End, q, PROGRAM, c);
    assert Append(End, FmtHeader(PROGRAM, c, End)) == FmtHeader(PROGRAM, c, End);
    ReadsOn(false, q, FmtHeader(PROGRAM, c, End), Opened(q, c), body, s);
    BraceReads(false, q, Append(FmtHeader(PROGRAM, c, End), body), s);
    ReadsAll(false, q, ProgramText(c, body), s.(open := None, blank := false, body := [], level := TokenLevel(s.level, RBrace)));
  }

  lemma OpenedIs(c: Callable)
    requires WfDecl(Program(c))
    ensures
      var r := Opened(Start([Program(c)]), c);
      && IsBody(r) && !r.blank && r.body == [] && r.top == [] && r.next == 1 && r.open == Some(0) && r.chain == 0
      && r.layout == [NoComments(Program(c))]
      && (IsFlat(r.level) <==> IsFlat(HeaderLevel(BOTTOM, c)))
  {
    HeaderBraces(BOTTOM, c);
    hide HeaderLevel, WfCallable;
    var s := Start([Program(c)]);
    assert s.layout[0].leading + s.top == s.layout[0].leading;
    assert SetLeading(s.layout, 0, s.top) == s.layout;
  }

  // ---- Lines that end in a token ----

  predicate LastIsToken(t: Text)
  {
    match t
    case End => false
    case T(_, rest) => rest == End || LastIsToken(rest)
    case W(_, rest) => LastIsToken(rest)
  }

  lemma {:induction false} LastAppend(t: Text, u: Text)
    requires LastIsToken(u)
    ensures LastIsToken(Append(t, u))
  {
    match t
    case End =>
    case T(token, rest) => LastAppend(rest, u);
    case W(gap, rest) => LastAppend(rest, u);
  }

  lemma {:induction false} SegmentsLast(q: QName)
    requires q != []
    ensures LastIsToken(FmtSegments(q, End))
  {
    if |q| > 1 { SegmentsLast(q[1..]); }
  }

  lemma QNameLast(q: QName)
    requires q != []
    ensures LastIsToken(FmtQName(q, End))
  {
    if |q| > 1 { SegmentsLast(q[1..]); }
  }

  lemma RefLast(r: NodeRef)
    requires WfRef(r)
    ensures LastIsToken(FmtRef(r, End))
  {
    if r.args == [] {
      QNameLast(r.base);
    } else {
      ArgsAppend(r.args, End, T(Greater, End));
      LastAppend(FmtArgs(r.args, End), T(Greater, End));
      var more := T(Less, FmtArgs(r.args, T(Greater, End)));
      QNameAppend(r.base, End, more);
      LastAppend(FmtQName(r.base, End), more);
      assert Append(End, T(Greater, End)) == T(Greater, End) && Append(End, more) == more;
    }
  }

  lemma {:induction false} EndpointLast(e: Endpoint)
    requires WfInline(e) || e.Name?
    requires e.Name? ==> WfRef(e.node)
    ensures LastIsToken(FmtEndpoint(e, End))
    decreases e, 0
  {
    hide FmtItems, FmtFields, FmtStages, FmtRef, WfItems, WfFields, WfStages, LastIsToken;
    match e
    case Name(r) => RefLast(r);
    case Tuple(items) =>
      ItemsAppend(items, End, T(RParen, End));
      Closes(FmtItems(items, End), RParen);
      OnToken(LParen, FmtItems(items, T(RParen, End)));
    case Seq(items) =>
      ItemsAppend(items, End, T(RBracket, End));
      Closes(FmtItems(items, End), RBracket);
      OnToken(LBracket, FmtItems(items, T(RBracket, End)));
    case Struct(n, fields) =>
      var last := W(" ", T(RBrace, End));
      FieldsAppend(fields, End, last);
      OnToken(RBrace, End);
      OnGap(" ", T(RBrace, End));
      LastAppend(FmtFields(fields, End), last);
      assert Append(End, last) == last;
      OnGap(" ", FmtFields(fields, last));
      OnToken(LBrace, W(" ", FmtFields(fields, last)));
      OnGap(" ", T(LBrace, W(" ", FmtFields(fields, last))));
      OnToken(Ident(n), W(" ", T(LBrace, W(" ", FmtFields(fields, last)))));
    case Eval(source, stages) =>
      StagesLast(stages);
      EndpointAppend(source, End, FmtStages(stages, End));
      LastAppend(FmtEndpoint(source, End), FmtStages(stages, End));
      assert Append(End, FmtStages(stages, End)) == FmtStages(stages, End);
    case Unit => OnToken(RParen, End); OnToken(LParen, T(RParen, End));
    case Variable(n) => OnToken(Token.Variable(n), End);
    case Int(n) => OnToken(Token.Int(n), End);
    case Real(text) => OnToken(Token.Real(text), End);
    case RealF32(text) => OnToken(Token.RealF32(text), End);
    case Bool(b) => OnToken(Token.Bool(b), End);
    case Str(v) => OnToken(Token.Str(v), End);
  }

  /** Lets the verifier look for the end of a text as far as it is spelled out. */
  lemma UnfoldLast()
    ensures forall token, rest :: LastIsToken(T(token, rest)) <==> rest == End || LastIsToken(rest)
    ensures forall gap, rest :: LastIsToken(W(gap, rest)) <==> LastIsToken(rest)
  {
  }

  lemma OnToken(token: Token, rest: Text)
    ensures LastIsToken(T(token, rest)) <==> rest == End || LastIsToken(rest)
  {}

  lemma OnGap(gap: string, rest: Text)
    ensures LastIsToken(W(gap, rest)) <==> LastIsToken(rest)
  {}

  lemma Closes(t: Text, token: Token)
    ensures LastIsToken(Append(t, T(token, End))) && Append(End, T(token, End)) == T(token, End)
  {
    LastAppend(t, T(token, End));
  }

  lemma {:induction false} StagesLast(stages: seq<Stage>)
    requires WfStages(stages) && stages != []
    ensures LastIsToken(FmtStages(stages, End))
    decreases stages
  {
    hide FmtStage, WfStage, LastIsToken;
    var rest := FmtStages(stages[1..], End);
    if |stages| > 1 {
      StagesLast(stages[1..]);
      StageAppend(stages[0], End, rest);
      LastAppend(FmtStage(stages[0], End), rest);
      assert Append(End, rest) == rest;
    } else {
      StageLast(stages[0]);
      assert rest == End;
    }
    var first := FmtStage(stages[0], rest);
    OnGap(" ", first);
    OnToken(Arrow, W(" ", first));
    OnGap(" ", T(Arrow, W(" ", first)));
  }

  lemma {:induction false} StageLast(s: Stage)
    requires WfStage(s)
    ensures LastIsToken(FmtStage(s, End))
    decreases s, 0
  {
    hide FmtEndpoint, FmtTarget, FmtRef, FmtArms, WfRef, WfArms, WfTarget, LastIsToken;
    match s
    case Value(e) => EndpointLast(e);
    case Bind(t) => TargetLast(t);
    case Map(r) => WordThenRef("map", r);
    case Filter(r) => WordThenRef("filter", r);
    case FieldOf(n) =>
      OnToken(Ident(n), End);
      OnGap(" ", T(Ident(n), End));
      OnToken(Ident("field"), W(" ", T(Ident(n), End)));
    case FaultMap(r, ok, fault) => FaultMapLast(r, ok, fault);
    case Repeat(count, r) =>
      RefLast(r);
      OnGap(" ", FmtRef(r, End));
      var more := T(Greater, W(" ", FmtRef(r, End)));
      OnToken(Greater, W(" ", FmtRef(r, End)));
      EndpointAppend(count, End, more);
      LastAppend(FmtEndpoint(count, End), more);
      assert Append(End, more) == more;
      OnToken(Less, FmtEndpoint(count, more));
      OnToken(Ident("repeat"), T(Less, FmtEndpoint(count, more)));
    case Reduce(r, identity) => FoldLast("reduce", r, identity);
    case Scan(r, identity) => FoldLast("scan", r, identity);
    case Match(arms) =>
      var last := W(" ", T(RBrace, End));
      ArmsAppend(arms, End, last);
      OnToken(RBrace, End);
      OnGap(" ", T(RBrace, End));
      LastAppend(FmtArms(arms, End), last);
      assert Append(End, last) == last;
      OnGap(" ", FmtArms(arms, last));
      OnToken(LBrace, W(" ", FmtArms(arms, last)));
      OnGap(" ", T(LBrace, W(" ", FmtArms(arms, last))));
      OnToken(Ident("match"), W(" ", T(LBrace, W(" ", FmtArms(arms, last)))));
  }

  lemma WordThenRef(word: string, r: NodeRef)
    requires WfRef(r)
    ensures LastIsToken(T(Ident(word), W(" ", FmtRef(r, End))))
  {
    RefLast(r);
    hide FmtRef;
  }

  lemma FoldLast(word: string, r: NodeRef, identity: Endpoint)
    ensures LastIsToken(T(Ident(word), W(" ", FmtRef(r, FmtIdentity(identity, End)))))
  {
    hide FmtRef, FmtEndpoint;
    EndpointAppend(identity, End, T(RParen, End));
    Closes(FmtEndpoint(identity, End), RParen);
    UnfoldLast();
    hide LastIsToken;
    var more := FmtIdentity(identity, End);
    assert LastIsToken(more);
    RefAppend(r, End, more);
    LastAppend(FmtRef(r, End), more);
    assert Append(End, more) == more;
  }

  lemma FaultMapLast(r: NodeRef, ok: string, fault: string)
    ensures LastIsToken(T(Ident("fault"), W(" ", FmtFaultMap(r, ok, fault, End))))
  {
    UnfoldLast();
    hide FmtRef, LastIsToken;
    var faultPart := T(Ident("fault"), W(" ", T(Arrow, W(" ", T(Token.Variable(fault), W(" ", T(RBrace, End)))))));
    var okPart := T(Ident("ok"), W(" ", T(Arrow, W(" ", T(Token.Variable(ok), T(Comma, W(" ", faultPart)))))));
    var more := W(" ", T(LBrace, W(" ", okPart)));
    assert LastIsToken(faultPart);
    assert LastIsToken(okPart);
    RefAppend(r, End, more);
    LastAppend(FmtRef(r, End), more);
    assert Append(End, more) == more;
  }

  lemma TargetLast(t: BindingTarget)
    ensures LastIsToken(FmtTarget(t, End))
  {
    if t.Both? {
      TargetsAppend(t.items, End, T(RParen, End));
      Closes(FmtTargets(t.items, End), RParen);
    }
  }

  /** The text of a chain on one line. */
  function OneLine(c: Chain, k: Text): Text { FmtAligned(c, 0, [Row(c, None)], k) }

  lemma {:induction false} AlignedLast(c: Chain, j: nat, group: seq<Row>)
    requires j <= |c.stages| && WfChain(c) && (j > 0 || c.stages != [])
    ensures LastIsToken(FmtAligned(c, j, group, End))
    decreases |c.stages| - j
  {
    hide FmtStage, FmtEndpoint, WfStages, WfAtom, ColumnWidth, Width, LastIsToken;
    if j == |c.stages| {
      EveryStage(c.stages, j - 1);
      StageLast(c.stages[j - 1]);
    } else {
      AlignedLast(c, j + 1, group);
      var width := Width(FmtPart(c, j, End));
      var pad := if ColumnWidth(group, j) > width then ColumnWidth(group, j) - width else 0;
      var next := FmtAligned(c, j + 1, group, End);
      var after := W(Spaces(pad) + " ", T(Arrow, W(" ", next)));
      OnGap(" ", next);
      OnToken(Arrow, W(" ", next));
      OnGap(Spaces(pad) + " ", T(Arrow, W(" ", next)));
      PartAppend(c, j, End, after);
      LastAppend(FmtPart(c, j, End), after);
      assert Append(End, after) == after;
    }
  }

  /** A text that ends in a token ends in no blank. */
  lemma {:induction false} LastChar(t: Text, u: Text)
    requires LastIsToken(t) && Laid(false, Append(t, u))
    ensures Render(t) != "" && !IsWhite(Render(t)[|Render(t)| - 1])
    decreases t
  {
    match t
    case T(token, rest) =>
      NoWhiteLast(token);
      if rest == End { assert Render(t) == TokenText(token) + ""; } else { LastChar(rest, u); }
    case W(gap, rest) => LastChar(rest, u);
  }

  // ---- A chain behind a block comment on its line ----

  function GapOf(w: string): string { INDENT + "/*" + w + "*/ " }

  /** The chain on one line, with a comment before it. */
  function CommentedLine(x: Chain, w: string): Text { W(GapOf(w), OneLine(x, NewLine(End))) }

  /** A body with that chain first. */
  function BodyBehindLine(x: Chain, w: string, chains: seq<Chain>): Text { FmtBody(CommentedLine(x, w), [], chains, 0, []) }

  function CommentedProgram(c: Callable, x: Chain, w: string, chains: seq<Chain>): string
  {
    Render(ProgramText(c, BodyBehindLine(x, w, chains)))
  }

  /** What is taken for the comment: the whole line. */
  function WholeLine(x: Chain, w: string): string { "/*" + w + "*/ " + Render(OneLine(x, End)) }

  lemma {:induction false} BlockEnds(w: string, rest: string)
    requires !HasBlockEnd(w)
    ensures AfterBlockAt(w + "*/" + rest, rest)
    decreases |w|
  {
    var s := w + "*/" + rest;
    if w == [] {
      assert s == "*/" + rest && s[2..] == rest;
    } else {
      assert s[1..] == w[1..] + "*/" + rest;
      forall i | 0 <= i < |w[1..]| - 1 ensures !(w[1..][i] == '*' && w[1..][i + 1] == '/') {
        assert w[1..][i] == w[i + 1] && w[1..][i + 1] == w[i + 2];
      }
      BlockEnds(w[1..], rest);
      if |w| > 1 { assert s[0] == w[0] && s[1] == w[1]; } else { assert s[1] == '*'; }
    }
  }

  predicate AfterBlockAt(s: string, rest: string) { Lexer.AfterBlock(s) == Lexer.Scanned([], rest) }

  lemma CommentIsGap(w: string)
    requires !HasBlockEnd(w)
    ensures IsGap(GapOf(w))
  {
    var s := "/*" + w + "*/ ";
    assert s[2..] == w + "*/" + " ";
    BlockEnds(w, " ");
    assert Skips(" ") by { BlankSkips(" "); }
    assert Skips(s);
    assert GapOf(w) == INDENT + s;
    BlanksSkip(INDENT, s);
  }

  lemma {:induction false} BlanksSkip(b: string, s: string)
    requires AllBlank(b) && Skips(s)
    ensures Skips(b + s)
  {
    if b == [] {
      assert b + s == s;
    } else {
      assert (b + s)[1..] == b[1..] + s;
      BlanksSkip(b[1..], s);
    }
  }

  lemma OneLineWhole(x: Chain)
    requires WfChain(x)
    ensures Whole(true, OneLine(x, NewLine(End))) && Whole(false, OneLine(x, NewLine(End)))
  {
    OneLineLaid(true, x);
    OneLineLaid(false, x);
    AlignedAppend(x, 0, [Row(x, None)], End, NewLine(End));
    UnfoldEnds();
    AppendEnds(OneLine(x, End), NewLine(End));
  }

  lemma OneLineLaid(strict: bool, x: Chain)
    requires WfChain(x)
    ensures Laid(strict, OneLine(x, NewLine(End)))
  {
    NewLineWhole(strict);
    AlignedSafe(strict, x, 0, [Row(x, None)], NewLine(End));
  }

  lemma CommentedLineWhole(strict: bool, x: Chain, w: string)
    requires WfChain(x) && !HasBlockEnd(w)
    ensures Whole(strict, CommentedLine(x, w))
    ensures forall k :: TokensOf(CommentedLine(x, w), k) == TkChain(x, k)
  {
    CommentIsGap(w);
    OneLineWhole(x);
    forall k ensures TokensOf(CommentedLine(x, w), k) == TkChain(x, k) {
      AlignedTokens(x, 0, [Row(x, None)], NewLine(End), k);
      FormatTokens.Unfold();
    }
    UnfoldEnds();
    FormatSafety.Unfold(strict);
    hide Laid, Runs, IsGap, GapOf;
  }

  /** The line of a chain: what is printed of it, without a line end in it, up to its last token. */
  lemma OneLineText(x: Chain, u: Text)
    requires WfChain(x)
    ensures Render(OneLine(x, NewLine(u))) == Render(OneLine(x, End)) + "\n" + Render(u)
    ensures '\n' !in Render(OneLine(x, End))
    ensures Render(OneLine(x, End)) != "" && !IsWhite(Render(OneLine(x, End))[|Render(OneLine(x, End))| - 1])
  {
    var g := [Row(x, None)];
    var a := Render(OneLine(x, End));
    AlignedAppend(x, 0, g, End, NewLine(u));
    RenderAppend(OneLine(x, End), NewLine(u));
    assert Append(End, NewLine(u)) == NewLine(u) && Render(NewLine(u)) == "\n" + Render(u);
    assert a + ("\n" + Render(u)) == a + "\n" + Render(u);
    LastOfLine(x);
    LineIsOne(x);
  }

  lemma LastOfLine(x: Chain)
    requires WfChain(x)
    ensures Render(OneLine(x, End)) != "" && !IsWhite(Render(OneLine(x, End))[|Render(OneLine(x, End))| - 1])
  {
    AlignedAppend(x, 0, [Row(x, None)], End, NewLine(End));
    assert Append(End, NewLine(End)) == NewLine(End);
    OneLineWhole(x);
    hide Laid, Ends, FmtAligned, WfChain;
    AlignedLast(x, 0, [Row(x, None)]) by { HasStages(x); }
    LastChar(OneLine(x, End), NewLine(End));
  }

  lemma HasStages(x: Chain)
    requires WfChain(x)
    ensures x.stages != []
  {}

  lemma LineIsOne(x: Chain)
    requires WfChain(x)
    ensures '\n' !in Render(OneLine(x, End))
  {
    var g := [Row(x, None)];
    var t, a := OneLine(x, NewLine(End)), Render(OneLine(x, End));
    AlignedAppend(x, 0, g, End, NewLine(End));
    RenderAppend(OneLine(x, End), NewLine(End));
    assert Append(End, NewLine(End)) == NewLine(End) && Render(NewLine(End)) == "\n";
    AlignedLevel(BOTTOM, x, 0, g, NewLine(End));
    LineEnds(BOTTOM, End);
    OneLineWhole(x);
    hide FmtAligned, Through, Laid, Ends, WfChain;
    FirstLine(BOTTOM, t);
    assert Render(t) == LineText(t) + "\n" + Render(End);
    SameLine(a, LineText(t));
  }

  lemma SameLine(a: string, b: string)
    requires a + "\n" == b + "\n" + ""
    ensures a == b
  {
    assert |a| == |b|;
    assert forall i :: 0 <= i < |a| ==> a[i] == (a + "\n")[i] == (b + "\n" + "")[i] == b[i];
  }

  /** The line is read as a comment that waits for the next chain. */
  lemma CommentedLineReads(r: Reader, x: Chain, w: string)
    requires WfChain(x) && !HasBlockEnd(w) && '\n' !in w && IsBody(r) && r.body == []
    ensures Reads(false, r, CommentedLine(x, w), r.(body := [WholeLine(x, w)]))
    ensures AreComments([WholeLine(x, w)]) && Again(false, INDENT, [WholeLine(x, w)]) == [WholeLine(x, w)]
  {
    var line, a := WholeLine(x, w), Render(OneLine(x, End));
    OneLineText(x, End);
    WholeLineIs(x, w);
    hide Render, OneLine, Step, HasBlockEnd, IsWhite;
    forall u | Laid(false, u)
      ensures ReadText(false, r, Append(CommentedLine(x, w), u)) == ReadText(false, r.(body := [line]), u)
    {
      CommentedText(x, w, u);
      LineThen(false, r, INDENT + line, Render(u));
      FirstStep(false, r, INDENT, line) by { IndentSpaces(); }
      assert r.body + [line] == [line];
    }
  }

  lemma WholeLineIs(x: Chain, w: string)
    requires WfChain(x) && !HasBlockEnd(w) && '\n' !in w
    ensures
      var line := WholeLine(x, w);
      && IsLine(line) && StartsWith(line, "/*") && HasBlockEnd(line) && '\n' !in INDENT + line
      && AreComments([line]) && Again(false, INDENT, [line]) == [line]
  {
    var line, a := WholeLine(x, w), Render(OneLine(x, End));
    OneLineText(x, End);
    hide OneLine, Render;
    assert line[|line| - 1] == a[|a| - 1];
    assert line[..2] == "/*";
    assert line[2 + |w|] == '*' && line[2 + |w| + 1] == '/';
    assert HasBlockEnd(line);
    HashFirst(line);
    assert line[0] == '/';
    BehindOne(false, line);
    StartsKept(line, "/*");
    assert [line][1..] == [];
  }

  lemma CommentedText(x: Chain, w: string, u: Text)
    requires WfChain(x)
    ensures Render(Append(CommentedLine(x, w), u)) == INDENT + WholeLine(x, w) + "\n" + Render(u)
  {
    AlignedAppend(x, 0, [Row(x, None)], NewLine(End), u);
    FormatAppend.Unfold();
    assert Append(CommentedLine(x, w), u) == W(GapOf(w), OneLine(x, NewLine(u)));
    OneLineText(x, u);
    var a := Render(OneLine(x, End));
    hide OneLine;
    assert Render(W(GapOf(w), OneLine(x, NewLine(u)))) == GapOf(w) + Render(OneLine(x, NewLine(u)));
    hide Render;
    JoinLine(w, a, Render(u));
  }

  lemma JoinLine(w: string, a: string, u: string)
    ensures GapOf(w) + (a + "\n" + u) == INDENT + ("/*" + w + "*/ " + a) + "\n" + u
  {
    var i: string := INDENT;
    Assoc(i, "/*" + w + "*/ ", a, u);
    assert GapOf(w) == i + ("/*" + w + "*/ ");
  }

  lemma Assoc(i: string, g: string, a: string, u: string)
    ensures (i + g) + (a + "\n" + u) == i + (g + a) + "\n" + u
  {}

  // ---- It is written again before the chain ----

  lemma {:induction false} BodyBehind(h: Text, acc: Text, group: seq<Row>, chains: seq<Chain>, i: nat)
    requires i <= |chains|
    ensures FmtBody(Append(h, acc), group, chains, i, []) == Append(h, FmtBody(acc, group, chains, i, []))
    decreases |chains| - i
  {
    hide IsMultiline, FmtMultilineChain;
    AppendAssociative(h, acc, FmtGroup(group, group, End));
    if i < |chains| {
      if IsMultiline(chains[i]) {
        var lines := FmtMultilineChain(chains[i], None, End);
        AppendAssociative(h, Flush(acc, group), lines);
        BodyBehind(h, Append(Flush(acc, group), lines), [], chains, i + 1);
      } else {
        BodyBehind(h, acc, group + [Row(chains[i], None)], chains, i + 1);
      }
    }
  }

  lemma {:induction false} BodyFrom(acc: Text, group: seq<Row>, chains: seq<Chain>, i: nat, a: seq<ChainComments>,
      b: seq<ChainComments>)
    requires i <= |chains| && forall k :: i <= k < |chains| ==> ChainAt(a, k) == ChainAt(b, k)
    ensures FmtBody(acc, group, chains, i, a) == FmtBody(acc, group, chains, i, b)
    decreases |chains| - i
  {
    hide IsMultiline, FmtMultilineChain, Break, Flush, Breaks, ChainAt;
    if i < |chains| {
      var c := ChainAt(a, i);
      var acc1 := if Breaks(c) then Break(acc, group, i, c) else acc;
      var group1 := if Breaks(c) then [] else group;
      if IsMultiline(chains[i]) {
        BodyFrom(Append(Flush(acc1, group1), FmtMultilineChain(chains[i], c.trailing, End)), [], chains, i + 1, a, b);
      } else {
        BodyFrom(acc1, group1 + [Row(chains[i], c.trailing)], chains, i + 1, a, b);
      }
    }
  }

  /** The first chain has a comment, the others none. */
  ghost predicate IsFirstOnly(comments: seq<ChainComments>, remark: string)
  {
    && ChainAt(comments, 0) == ChainComments(false, [remark], None)
    && forall k :: 0 < k ==> ChainAt(comments, k) == BARE
  }

  lemma BodyWithFirst(acc: Text, chains: seq<Chain>, comments: seq<ChainComments>, remark: string)
    requires chains != [] && IsFirstOnly(comments, remark)
    ensures FmtBody(acc, [], chains, 0, comments) == FmtBody(Append(acc, Remarks(INDENT, [remark])), [], chains, 0, [])
  {
    hide IsMultiline, FmtMultilineChain, Remarks;
    var c := ChainComments(false, [remark], None);
    AppendEnd(acc);
    assert Flush(acc, []) == acc;
    var acc1 := Append(acc, Remarks(INDENT, [remark]));
    assert Break(acc, [], 0, c) == acc1;
    if IsMultiline(chains[0]) {
      BodyFrom(Append(Flush(acc1, []), FmtMultilineChain(chains[0], None, End)), [], chains, 1, comments, []);
    } else {
      BodyFrom(acc1, [] + [Row(chains[0], None)], chains, 1, comments, []);
    }
  }

  lemma PrintedProgram(c: Callable, chains: seq<Chain>, comments: seq<ChainComments>)
    ensures
      Render(FmtModule(ProgramOf(c, chains), [DeclComments([], comments)]))
      == Render(Append(FmtBody(FmtHeader(PROGRAM, c, End), [], chains, 0, comments), BRACE))
  {
    var d := Program(c.(chains := chains));
    var header, layout := FmtHeader(PROGRAM, c, End), [DeclComments([], comments)];
    var body := FmtBody(header, [], chains, 0, comments);
    assert FmtHeader(PROGRAM, d.callable, End) == header;
    assert Between(End, [d], 0, []) == End;
    hide FmtHeader, FmtBody;
    assert Append(End, header) == header;
    assert FmtDecl(End, d, comments) == Append(body, BRACE);
    assert FmtDecls(End, [d], 0, layout) == Append(body, BRACE);
    RenderAppend(body, BRACE);
    assert Render(BRACE) == "}" + ("\n" + "");
    var s := Render(Append(body, BRACE));
    assert s[|s| - 1] == '\n';
  }

  lemma DoubledText(c: Callable, x: Chain, w: string, chains: seq<Chain>, comments: seq<ChainComments>)
    requires WfChain(x) && chains != [] && IsFirstOnly(comments, WholeLine(x, w)) && !HasBlockEnd(w) && '\n' !in w
    ensures
      Render(FmtModule(ProgramOf(c, chains), [DeclComments([], comments)]))
      == CommentedProgram(c, x, w, chains)
  {
    var header, remark := FmtHeader(PROGRAM, c, End), WholeLine(x, w);
    var written, line := Remarks(INDENT, [remark]), CommentedLine(x, w);
    assert Render(written) == Render(line) by {
      CommentedText(x, w, End);
      AppendEnd(line);
      WholeLineIs(x, w);
      RemarkText(remark);
    }
    hide FmtHeader, FmtBody, Render, CommentedLine, WholeLine, IsFirstOnly;
    PrintedProgram(c, chains, comments);
    BodyWithFirst(header, chains, comments, remark);
    RenderAppend(header, written);
    RenderAppend(header, line);
    BodyAlike(Append(header, written), Append(header, line), [], chains, 0, []);
    BodyBehind(header, line, [], chains, 0);
    RenderAppend(FmtBody(Append(header, written), [], chains, 0, []), BRACE);
    RenderAppend(FmtBody(Append(header, line), [], chains, 0, []), BRACE);
  }

  lemma RemarkText(remark: string)
    requires StartsWith(remark, "/*")
    ensures Render(Remarks(INDENT, [remark])) == INDENT + remark + "\n" + Render(End)
  {
    StartsKept(remark, "/*");
    assert [remark][1..] == [];
    hide TrimStart;
    assert CommentLines(INDENT, [remark]) == INDENT + remark + "\n" + "";
    assert INDENT + remark + "\n" + "" + "" == INDENT + remark + "\n" + "";
  }

  lemma CommentedBody(c: Callable, x: Chain, w: string, chains: seq<Chain>)
    requires WfDecl(Program(c)) && CallableApart(c) && WfChain(x) && !HasBlockEnd(w)
    requires forall i :: 0 <= i < |chains| ==> WfChain(chains[i])
    ensures
      Parse(CommentedProgram(c, x, w, chains)) == Some(ProgramOf(c, [x] + chains))
  {
    hide WfCallable, CallableApart, WfChain, BodyBehindLine, Whole, TokensOf, TkChains, Parse, Render, ProgramText,
         ProgramOf;
    BodyBehindWhole(x, w, chains);
    BodyBehindTokens(x, w, chains, Cons(RBrace, Nil));
    ProgramParsed(c, BodyBehindLine(x, w, chains), [x] + chains);
  }

  lemma BodyBehindWhole(x: Chain, w: string, chains: seq<Chain>)
    requires WfChain(x) && !HasBlockEnd(w) && forall i :: 0 <= i < |chains| ==> WfChain(chains[i])
    ensures Whole(true, BodyBehindLine(x, w, chains)) && Whole(false, BodyBehindLine(x, w, chains))
  {
    CommentedLineWhole(true, x, w);
    CommentedLineWhole(false, x, w);
    NoRows();
    hide WfChain, CommentedLine, FmtBody, Whole;
    BodyWhole(true, CommentedLine(x, w), [], chains, 0, []);
    BodyWhole(false, CommentedLine(x, w), [], chains, 0, []);
  }

  lemma BodyBehindTokens(x: Chain, w: string, chains: seq<Chain>, z: List)
    requires WfChain(x) && !HasBlockEnd(w)
    ensures TokensOf(BodyBehindLine(x, w, chains), z) == TkChains([x] + chains, z)
  {
    var line := CommentedLine(x, w);
    CommentedLineWhole(true, x, w);
    hide WfChain, CommentedLine, FmtBody, TokensOf, TkChain;
    BodyTokens(line, [], chains, 0, [], z);
    assert chains[0..] == chains && ([x] + chains)[1..] == chains;
    assert TkRows([], TkChains(chains, z)) == TkChains(chains, z);
  }

  // ---- What is collected of such a program ----

  lemma {:induction false} FirstTakes(
    r: Reader, chains: seq<Chain>, comments: seq<ChainComments>, remark: string, n: nat)
    requires IsFirstOnly(comments, remark) && Again(false, INDENT, [remark]) == [remark] && r.body == [] && !r.blank
    requires 0 < n <= |chains|
    ensures Marks(false, r.(body := [remark]), chains, [], n) == Marks(false, r, chains, comments, n)
  {
    if n > 1 {
      FirstTakes(r, chains, comments, remark, n - 1);
    } else {
      assert [remark] + [] == [remark] && [] + [remark] == [remark];
      assert Ready(r.(body := [remark]), 0, BARE) == Ready(r, 0, ChainAt(comments, 0));
      assert Marks(false, r.(body := [remark]), chains, [], 0) == r.(body := [remark]);
      assert Marks(false, r, chains, comments, 0) == r;
    }
  }

  lemma LineThenRows(r: Reader, x: Chain, w: string, rest: seq<Chain>, comments: seq<ChainComments>)
    requires IsBody(r) && IsFlat(r.level) && !r.blank && r.body == [] && WfChain(x) && rest != []
    requires forall i :: 0 <= i < |rest| ==> WfChain(rest[i])
    requires !HasBlockEnd(w) && '\n' !in w && IsFirstOnly(comments, WholeLine(x, w))
    ensures Reads(false, r, BodyBehindLine(x, w, rest), Marks(false, r, rest, comments, |rest|))
  {
    var remark := WholeLine(x, w);
    var r1 := r.(body := [remark]);
    assert BodyBehindLine(x, w, rest) == FmtBody(CommentedLine(x, w), [], rest, 0, []);
    NoMarks(r1, rest);
    NoRows();
    hide WfChain, CommentedLine, WholeLine, FmtBody, Reads, Marks, IsFirstOnly, ChainAt, BodyBehindLine, Before,
         HasBlockEnd;
    CommentedLineReads(r, x, w);
    BodyReads(false, r, CommentedLine(x, w), r1, [], rest, [], 0);
    FirstTakes(r, rest, comments, remark, |rest|);
  }

  lemma ItsChains(c: Callable, x: Chain, rest: seq<Chain>)
    requires WfDecl(Program(c)) && c.chains == [x] + rest
    ensures WfChain(x) && (forall i :: 0 <= i < |rest| ==> WfChain(rest[i])) && forall i :: 0 <= i < |[x] + rest| ==>
              WfChain(([x] + rest)[i])
  {
    hide WfChain;
    assert c.chains[0] == x && forall k :: 0 <= k < |rest| ==> rest[k] == c.chains[k + 1];
  }

  lemma CommentedBodyReads(c: Callable, x: Chain, w: string, rest: seq<Chain>, comments: seq<ChainComments>)
    requires WfDecl(Program(c)) && c.chains == [x] + rest && rest != [] && IsFlat(HeaderLevel(BOTTOM, c))
    requires !HasBlockEnd(w) && '\n' !in w && IsFirstOnly(comments, WholeLine(x, w))
    ensures
      var r := Opened(Start([Program(c)]), c);
      Reads(false, r, BodyBehindLine(x, w, rest), Marks(false, r, rest, comments, |rest|))
  {
    OpenedIs(c);
    ItsChains(c, x, rest);
    hide *;
    LineThenRows(Opened(Start([Program(c)]), c), x, w, rest, comments);
  }

  lemma NoMarks(r: Reader, chains: seq<Chain>)
    ensures Before(false, r, chains, [], 0, 0) == r
  {}

  lemma CommentedLayout(c: Callable, x: Chain, w: string, rest: seq<Chain>) returns (comments: seq<ChainComments>)
    requires WfDecl(Program(c)) && c.chains == [x] + rest && rest != [] && IsFlat(HeaderLevel(BOTTOM, c))
    requires !HasBlockEnd(w) && '\n' !in w
    ensures IsFirstOnly(comments, WholeLine(x, w))
    ensures
      ReadLayout(CommentedProgram(c, x, w, rest), [Program(c)])
      == [DeclComments([], comments)]
  {
    var r := Opened(Start([Program(c)]), c);
    var wanted := [ChainComments(false, [WholeLine(x, w)], None)];
    OpenedIs(c);
    assert IsFirstOnly(wanted, WholeLine(x, w));
    assert c.chains[0] == x && forall k :: 0 <= k < |rest| ==> rest[k] == c.chains[k + 1];
    assert CommentedProgram(c, x, w, rest) == Render(ProgramText(c, BodyBehindLine(x, w, rest)));
    hide WfChain, WfCallable, CommentedLine, HeaderLevel, Opened, BodyBehindLine, Reads, Marks, Whole, WholeLine,
         Render, ProgramText,
         HasBlockEnd, IsFirstOnly, CommentedProgram, ReadLayout, ReadLines;
    CommentedBodyReads(c, x, w, rest, wanted);
    BodyBehindWhole(x, w, rest);
    CommentedLineReads(r, x, w);
    comments := CommentedMarks(r, rest, WholeLine(x, w));
    var s := Marks(false, r, rest, wanted, |rest|);
    ProgramLayout(c, |rest| + 1, BodyBehindLine(x, w, rest), s);
  }

  lemma CommentedMarks(r: Reader, rest: seq<Chain>, remark: string) returns (comments: seq<ChainComments>)
    requires IsBody(r) && IsFlat(r.level) && r.open == Some(0) && r.chain == 0 && r.body == [] && !r.blank && rest != []
    requires r.layout == [DeclComments([], seq(|rest| + 1, _ => BARE))] && Again(false, INDENT, [remark]) == [remark]
    ensures
      var s := Marks(false, r, rest, [ChainComments(false, [remark], None)], |rest|);
      IsBody(s) && s.next == r.next && s.level == r.level && s.layout == [DeclComments([], comments)]
    ensures IsFirstOnly(comments, remark)
  {
    var wanted := [ChainComments(false, [remark], None)];
    hide Marks;
    MarksRow(false, r, rest, wanted, |rest|);
    MarksKeep(false, r, rest, wanted, |rest|);
    var s := Marks(false, r, rest, wanted, |rest|);
    comments := s.layout[0].chains;
    FirstIsOnly(comments, rest, r.level, remark);
    assert s.layout == [DeclComments([], comments)];
  }

  lemma FirstIsOnly(comments: seq<ChainComments>, rest: seq<Chain>, l: Level, remark: string)
    requires rest != [] && |comments| == |rest| + 1 && IsFlat(l) && Again(false, INDENT, [remark]) == [remark]
    requires
      forall k :: 0 <= k < |comments| ==>
        comments[k] == if k < |rest| then ReadChain(false, l, rest[k], ChainAt([ChainComments(false, [remark], None)], k), k) else BARE
    ensures IsFirstOnly(comments, remark)
  {
    assert Again(false, INDENT, []) == [];
    hide IsLongStruct;
  }

  /**
   * The whole line of a chain behind a block comment is kept as a comment, for the next chain, and written before
   * the first one: the formatted program has the chain twice.
   */
  lemma ChainsBehindCommentsAreDoubled(c: Callable, x: Chain, rest: seq<Chain>, w: string)
    requires WfDecl(Program(c)) && c.chains == [x] + rest && rest != [] && CallableApart(c)
             && IsFlat(HeaderLevel(BOTTOM, c))
    requires !HasBlockEnd(w) && '\n' !in w
    ensures FormatsTo(CommentedProgram(c, x, w, rest), ProgramOf(c, [x] + rest), ProgramOf(c, [x, x] + rest))
  {
    var source, all := CommentedProgram(c, x, w, rest), [x] + rest;
    ItsChains(c, x, rest);
    assert [x] + all == [x, x] + rest;
    assert ProgramOf(c, all).declarations == [Program(c)];
    hide WfDecl, WfChain, CommentedProgram, HeaderLevel, Parse, CallableApart, ProgramOf, HasBlockEnd, Render,
         FmtModule, ReadLayout,
         IsFirstOnly;
    CommentedBody(c, x, w, rest);
    CommentedBody(c, x, w, all);
    var comments := CommentedLayout(c, x, w, rest);
    DoubledText(c, x, w, all, comments);
    var m := ProgramOf(c, all);
    hide *;
    FormatsToText(source, m, [DeclComments([], comments)], CommentedProgram(c, x, w, all), ProgramOf(c, [x, x] + rest));
  }

  lemma FormatsToText(source: string, m: Module, layout: Layout, text: string, n: Module)
    requires Parse(source) == Some(m) && ReadLayout(source, m.declarations) == layout
             && Render(FmtModule(m, layout)) == text
    requires Parse(text) == Some(n)
    ensures FormatsTo(source, m, n)
  {
    hide Parse, ReadLayout, Render, FmtModule;
  }

  // ---- A comment behind a long struct literal ----

  /** The chain on one line, with the comment behind it. */
  function RemarkedLine(x: Chain, remark: string): Text
  {
    W(INDENT, FmtEndpoint(x.source, FmtStages(x.stages, LineEnd(Some(remark), End))))
  }

  lemma RemarkedLineWhole(strict: bool, x: Chain, remark: string)
    requires WfChain(x) && IsHash(remark)
    ensures Whole(strict, RemarkedLine(x, remark))
    ensures forall z :: TokensOf(RemarkedLine(x, remark), z) == TkChain(x, z)
  {
    var end := LineEnd(Some(remark), End);
    var stages := FmtStages(x.stages, end);
    EmptyWhole(strict);
    UnfoldEnds();
    LineEndSafe(strict, Some(remark), End);
    StagesSafe(strict, x.stages, end);
    StagesBlank(x.stages, end);
    AtomSafe(strict, x.source, stages);
    StagesAppend(x.stages, End, end);
    AppendEnds(FmtStages(x.stages, End), end);
    EndpointAppend(x.source, End, stages);
    AppendEnds(FmtEndpoint(x.source, End), stages);
    forall z ensures TokensOf(RemarkedLine(x, remark), z) == TkChain(x, z) {
      EndpointTokens(x.source, stages, z);
      StagesTokens(x.stages, end, z);
      FormatTokens.Unfold();
    }
    FormatSafety.Unfold(strict);
    hide Laid, Runs, IsGap, FmtEndpoint, FmtStages, TkEndpoint, TkStages, TokensOf, WfAtom, WfStages;
  }

  lemma RemarkedLineReads(r: Reader, x: Chain, remark: string)
    requires WfChain(x) && IsHash(remark) && IsBody(r)
    ensures Reads(false, r, RemarkedLine(x, remark), ChainStep(false, r, Some(remark)))
  {
    RemarkedLineWhole(false, x, remark);
    var s := ChainStep(false, r, Some(remark));
    hide WfChain, ReadText;
    forall u | Laid(false, u) ensures ReadText(false, r, Append(RemarkedLine(x, remark), u)) == ReadText(false, s, u) {
      RemarkedLineRead(r, x, remark, u);
    }
  }

  lemma RemarkedLineRead(r: Reader, x: Chain, remark: string, u: Text)
    requires WfChain(x) && IsHash(remark) && IsBody(r) && Laid(false, u) && Whole(false, RemarkedLine(x, remark))
    ensures ReadText(false, r, Append(RemarkedLine(x, remark), u)) == ReadText(false, ChainStep(false, r, Some(remark)), u)
  {
    var t := Append(RemarkedLine(x, remark), u);
    AppendSafe(false, RemarkedLine(x, remark), u);
    var end := LineEnd(Some(remark), u);
    var line := FmtEndpoint(x.source, FmtStages(x.stages, end));
    LineEndAppend(Some(remark), End, u);
    StagesAppend(x.stages, LineEnd(Some(remark), End), u);
    EndpointAppend(x.source, FmtStages(x.stages, LineEnd(Some(remark), End)), u);
    assert t == W(INDENT, line) by { FormatAppend.Unfold(); }
    LineEndThrough(r.level, Some(remark), u);
    StagesLevel(r.level, x.stages, end);
    EndpointLevel(r.level, x.source, FmtStages(x.stages, end));
    AtomFirst(x.source, FmtStages(x.stages, end));
    hide Laid, Ends, Through, FmtEndpoint, FmtStages, ReadText, FirstToken, LineEnd, Taken, WfChain;
    IndentedLine(r.level, line, Some(Line(r.level, Some(remark), u)));
    InnerLine(false, r, t, Line(r.level, Some(remark), u), line.token);
    ChainKeeps(false, r, Some(remark));
  }

  /** A program with that chain alone in its body. */
  function RemarkedProgram(c: Callable, x: Chain, remark: string): string
  {
    Render(ProgramText(c, RemarkedLine(x, remark)))
  }

  lemma RemarkedLayout(c: Callable, x: Chain, remark: string)
    requires WfDecl(Program(c)) && c.chains == [x] && IsFlat(HeaderLevel(BOTTOM, c)) && IsHash(remark)
    ensures
      ReadLayout(RemarkedProgram(c, x, remark), [Program(c)])
      == [DeclComments([], [ChainComments(false, [], Some(remark))])]
  {
    var r := Opened(Start([Program(c)]), c);
    OpenedIs(c);
    assert WfChain(x) by { assert c.chains[0] == x; }
    RemarkedLineReads(r, x, remark);
    RemarkedLineWhole(false, x, remark);
    var s := ChainStep(false, r, Some(remark));
    assert NoComments(Program(c)) == DeclComments([], [BARE]);
    OnlyStep(r, Some(remark));
    assert RemarkedProgram(c, x, remark) == Render(ProgramText(c, RemarkedLine(x, remark)));
    hide *;
    ProgramLayout(c, 1, RemarkedLine(x, remark), s);
  }

  /** The step of the only chain of the only declaration. */
  lemma OnlyStep(r: Reader, remark: Option<string>)
    requires IsBody(r) && IsFlat(r.level) && r.open == Some(0) && r.chain == 0 && r.layout == [DeclComments([], [BARE])]
    requires !r.blank && r.body == []
    ensures
      var s := ChainStep(false, r, remark);
      IsBody(s) && s.next == r.next && s.level == r.level
        && s.layout == [DeclComments([], [ChainComments(false, [], remark)])]
  {
    var c := ChainComments(false, [], remark);
    assert r.layout[0].chains[0].leading + r.body == [];
    assert [BARE][0 := c] == [c];
    assert SetChain(r.layout, 0, 0, c) == [DeclComments([], [c])];
  }

  lemma RemarkedBody(c: Callable, x: Chain, remark: string)
    requires WfDecl(Program(c)) && c.chains == [x] && CallableApart(c) && IsHash(remark)
    ensures Parse(RemarkedProgram(c, x, remark)) == Some(ProgramOf(c, [x]))
  {
    assert WfChain(x) by { assert c.chains[0] == x; }
    RemarkedLineWhole(true, x, remark);
    var z := Cons(RBrace, Nil);
    assert [x][1..] == [] && TkChains([], z) == z && TkChains([x], z) == TkChain(x, z);
    hide WfCallable, RemarkedLine, Whole, WfChain, CallableApart, Render, ProgramText, Parse, TokensOf, TkChain, TkChains;
    ProgramParsed(c, RemarkedLine(x, remark), [x]);
  }

  /** A comment behind a chain that starts with a long struct literal goes to its last line, and then it is lost. */
  lemma LongStructCommentsAreLost(c: Callable, x: Chain, remark: string)
    requires WfDecl(Program(c)) && c.chains == [x] && CallableApart(c) && IsFlat(HeaderLevel(BOTTOM, c))
    requires IsLongStruct(x.source) && IsHash(remark)
    ensures
      var source := RemarkedProgram(c, x, remark);
      && Parse(source) == Some(ProgramOf(c, [x])) && FormatText(source).Some?
      && FormatText(FormatText(source).value) != FormatText(source)
  {
    var m, source := ProgramOf(c, [x]), RemarkedProgram(c, x, remark);
    var layout := [DeclComments([], [ChainComments(false, [], Some(remark))])];
    assert m.declarations == [Program(c)];
    assert LayoutSkips(layout) by { BareSkips(); }
    assert IsLost([Program(c)], layout, 0, 0);
    ReadableProgram(c);
    hide WfCallable, RemarkedLine, HeaderLevel, DeclsLevel, CallableApart, Render, ProgramText, ReadLayout, Parse,
         FormatText,
         LayoutSkips, ModuleReadable, IsLongStruct, IsLost;
    RemarkedBody(c, x, remark);
    RemarkedLayout(c, x, remark);
    hide RemarkedProgram;
    FormattingIsIdempotentIff(source);
  }

  lemma ReadableProgram(c: Callable)
    requires WfDecl(Program(c)) && CallableApart(c)
    ensures ModuleReadable(Module([Program(c)]))
  {
    var m := Module([Program(c)]);
    assert WfModule(m) && ModuleApart(m);
    assert ModuleLike(m, m);
    hide WfCallable, CallableApart, CallableLike, CallableReadable;
    ModuleIsReadable(m, m);
  }
}
