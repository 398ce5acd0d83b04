/** Two faults of the formatter that undo each other. */
module FaultsCancel {
  import opened Tokens
  import opened Ast
  import Lexer
  import opened Parsing
  import opened WellFormed
  import RoundTrip
  import opened Rendering
  import opened Comments
  import opened Formatting
  import FormatTokens
  import FormatAppend
  import opened FormatSafety
  import opened FormatSource
  import opened CommentLayout
  import opened KeptComments
  import opened PrintedLines
  import PrintedLevels
  import opened LayoutLines
  import opened LayoutRead
  import opened Idempotence
  import opened FormatProgram
  import opened CommentFaults

  const ZEROS: TypeText := [Token.Int(0), Token.Int(0)]

  /** `type a = 0 0` and `type b = t`. */
  function TwoTypes(a: string, b: string, t: string): Module { Module([TypeAlias(a, ZEROS), TypeAlias(b, [Ident(t)])]) }

  /** The second declaration, and before it a comment, `0` and the end of a line. */
  function Behind(w: string, k: Text): Text { W("/*" + w + "*/ ", T(Token.Int(0), NewLine(k))) }

  /** The first annotation starts behind a comment on a line of its own and goes on with a second line. */
  function SpreadText(a: string, w: string, b: string, t: string): Text
  {
    var second := FmtAlias(b, [Ident(t)], End);
    T(Ident("type"), W(" ", T(Ident(a), W(" ", T(Equal, NewLine(Behind(w, T(Token.Int(0), NewLine(second)))))))))
  }

  function ZeroLine(w: string): string { "/*" + w + "*/ 0" }

  lemma ZerosAre(k: List, more: Text)
    ensures WfType(ZEROS) && !Apart(ZEROS)
    ensures TkType(ZEROS, k) == Cons(Token.Int(0), Cons(Token.Int(0), k))
    ensures FmtType(ZEROS, more) == T(Token.Int(0), T(Token.Int(0), more))
  {
    assert ZEROS[1..] == [Token.Int(0)] && [Token.Int(0)][1..] == [];
    assert TkType([Token.Int(0)], k) == Cons(Token.Int(0), k);
    assert FmtTypeTail([Token.Int(0)], more) == T(Token.Int(0), more);
    assert Joins(ZEROS[0], ZEROS[1]);
  }

  lemma OneName(t: string, k: List, more: Text)
    requires IsIdent(t)
    ensures WfType([Ident(t)]) && Apart([Ident(t)]) && TkType([Ident(t)], k) == Cons(Ident(t), k)
    ensures FmtType([Ident(t)], more) == T(Ident(t), more)
  {
    assert [Ident(t)][1..] == [];
  }

  /** The tokens of the two declarations behind the first annotation. */
  function Rest(b: string, t: string): List { Cons(Ident("type"), Cons(Ident(b), Cons(Equal, Cons(Ident(t), Nil)))) }

  lemma TwoTypesAre(a: string, b: string, t: string)
    requires IsIdent(a) && IsIdent(b) && IsIdent(t)
    ensures WfModule(TwoTypes(a, b, t)) && !ModuleApart(TwoTypes(a, b, t))
    ensures
      TkDecls(TwoTypes(a, b, t).declarations, [false, false])
      == Cons(Ident("type"), Cons(Ident(a), Cons(Equal, Cons(Token.Int(0), Cons(Token.Int(0), Rest(b, t))))))
  {
    var ds := TwoTypes(a, b, t).declarations;
    ZerosAre(Rest(b, t), End);
    OneName(t, Nil, End);
    hide WfType, Apart, TkType;
    assert ds[1..] == [TypeAlias(b, [Ident(t)])] && ds[1..][1..] == [] && [false, false][1..] == [false] && [false][1..] == [];
    assert TkDecls(ds[1..], [false]) == Rest(b, t);
    assert !DeclApart(ds[0]);
  }

  // ---- The source ----

  lemma BehindSafe(strict: bool, w: string, k: Text)
    requires !HasBlockEnd(w) && Whole(strict, k)
    ensures Whole(strict, Behind(w, k)) && Whole(strict, NewLine(Behind(w, k)))
  {
    ZeroGap(w);
    FormatSafety.Unfold(strict);
    UnfoldEnds();
    hide Laid, Runs, IsGap, Ends;
  }

  lemma ZeroGap(w: string)
    requires !HasBlockEnd(w)
    ensures IsGap("/*" + w + "*/ ")
  {
    CommentIsGap(w);
    var s := "/*" + w + "*/ ";
    assert GapOf(w) == INDENT + s;
    SpacesSkip(INDENT, s);
  }

  lemma {:induction false} SpacesSkip(b: string, s: string)
    requires AllBlank(b) && Skips(b + s)
    ensures Skips(s)
  {
    if b == [] {
      assert b + s == s;
    } else {
      assert (b + s)[1..] == b[1..] + s;
      SpacesSkip(b[1..], s);
    }
  }

  lemma SpreadParsed(a: string, w: string, b: string, t: string)
    requires IsIdent(a) && IsIdent(b) && IsIdent(t) && !HasBlockEnd(w)
    ensures Parse(Render(SpreadText(a, w, b, t))) == Some(TwoTypes(a, b, t))
  {
    var m, src := TwoTypes(a, b, t), SpreadText(a, w, b, t);
    SpreadSafe(a, w, b, t);
    TwoTypesAre(a, b, t);
    hide WfModule, TkDecls, Laid, SpreadText, ParseModule, Lexer.Lex, Render, TokensOf;
    RenderedLexes(src);
    RoundTrip.ModuleParsed(m, [false, false]);
  }

  lemma SecondAlias(strict: bool, b: string, t: string)
    requires IsIdent(b) && IsIdent(t)
    ensures Whole(strict, FmtAlias(b, [Ident(t)], End))
    ensures TokensOf(FmtAlias(b, [Ident(t)], End), Nil) == Rest(b, t)
  {
    OneName(t, Nil, NewLine(End));
    AliasWhole(strict, b, [Ident(t)]);
    hide WfType, Apart, FmtType;
    FormatTokens.Unfold();
  }

  lemma SpreadSafe(a: string, w: string, b: string, t: string)
    requires IsIdent(a) && IsIdent(b) && IsIdent(t) && !HasBlockEnd(w)
    ensures Whole(true, SpreadText(a, w, b, t)) && Whole(false, SpreadText(a, w, b, t))
    ensures
      TokensOf(SpreadText(a, w, b, t), Nil)
      == Cons(Ident("type"), Cons(Ident(a), Cons(Equal, Cons(Token.Int(0), Cons(Token.Int(0), Rest(b, t))))))
  {
    var second := FmtAlias(b, [Ident(t)], End);
    SecondAlias(true, b, t);
    SecondAlias(false, b, t);
    assert IsIdent("type");
    hide FmtAlias, IsIdent;
    SpreadWhole(true, a, w, second);
    SpreadWhole(false, a, w, second);
    FormatTokens.Unfold();
    hide TokensOf;
  }

  lemma SpreadWhole(strict: bool, a: string, w: string, second: Text)
    requires IsIdent(a) && !HasBlockEnd(w) && Whole(strict, second)
    ensures
      Whole(strict, T(Ident("type"), W(" ", T(Ident(a), W(" ", T(Equal, NewLine(Behind(w, T(Token.Int(0), NewLine(second))))))))))
  {
    hide IsIdent, Whole, HasBlockEnd;
    ZeroWhole(strict, w, second);
    HeadWhole(strict, a, NewLine(Behind(w, T(Token.Int(0), NewLine(second)))));
  }

  lemma HeadWhole(strict: bool, a: string, k: Text)
    requires IsIdent(a) && Whole(strict, k) && k.W?
    ensures Whole(strict, T(Ident("type"), W(" ", T(Ident(a), W(" ", T(Equal, k))))))
  {
    assert IsIdent("type");
    FormatSafety.Unfold(strict);
    UnfoldEnds();
    hide Laid, Runs, IsGap, Ends, IsIdent;
  }

  lemma ZeroWhole(strict: bool, w: string, second: Text)
    requires !HasBlockEnd(w) && Whole(strict, second)
    ensures
      var t := Behind(w, T(Token.Int(0), NewLine(second)));
      Whole(strict, t) && Whole(strict, NewLine(t))
  {
    FormatSafety.Unfold(strict);
    UnfoldEnds();
    hide Laid, Runs, IsGap, Ends;
    BehindSafe(strict, w, T(Token.Int(0), NewLine(second)));
  }

  // ---- The comment that is kept ----

  lemma FirstRead(r: Reader, a: string, k: Text)
    requires IsIdent(a) && IsOutside(r) && r.level == BOTTOM && Whole(false, k)
    ensures
      ReadText(false, r, T(Ident("type"), W(" ", T(Ident(a), W(" ", T(Equal, NewLine(k)))))))
        == ReadText(false, Named(r), k)
  {
    var rest := W(" ", T(Ident(a), W(" ", T(Equal, NewLine(k)))));
    assert IsDeclWord("type");
    NewLineThen(k);
    HeadWhole(false, a, NewLine(k));
    HeadThrough(a, k);
    hide Laid, Through, ReadText, IsIdent, IsDeclWord;
    PlainLine(false, r, "type", rest, BOTTOM, k);
  }

  lemma NewLineThen(k: Text)
    requires Whole(false, k)
    ensures Whole(false, NewLine(k))
  {
    FormatSafety.Unfold(false);
    UnfoldEnds();
    hide Laid, Ends;
  }

  lemma HeadThrough(a: string, k: Text)
    ensures Through(BOTTOM, T(Ident("type"), W(" ", T(Ident(a), W(" ", T(Equal, NewLine(k)))))))
            == Some(Line(BOTTOM, None, k))
  {
    PrintedLevels.Unfold();
    hide Through;
  }

  lemma CommentRead(r: Reader, w: string, k: Text)
    requires r.comment.None? && r.open.None? && !HasBlockEnd(w) && '\n' !in w
    ensures ReadText(false, r, Behind(w, k)) == ReadText(false, r.(top := r.top + [ZeroLine(w)]), k)
    ensures StartsWith(ZeroLine(w), "/*") && AreComments([ZeroLine(w)])
  {
    var line := ZeroLine(w);
    ZeroLineIs(w);
    BehindText(w, k);
    hide Step, HasBlockEnd, Behind, ZeroLine;
    LineThen(false, r, line, Render(k));
    FirstStep(false, r, "", line);
    assert "" + line == line;
  }

  lemma BehindText(w: string, k: Text)
    ensures Render(Behind(w, k)) == ZeroLine(w) + "\n" + Render(k)
  {
    assert TokenText(Token.Int(0)) == "0";
    assert Render(T(Token.Int(0), NewLine(k))) == "0" + ("\n" + Render(k));
    assert ("/*" + w + "*/ ") + ("0" + ("\n" + Render(k))) == ("/*" + w + "*/ 0") + "\n" + Render(k);
  }

  lemma ZeroLineIs(w: string)
    requires !HasBlockEnd(w) && '\n' !in w
    ensures
      var line := ZeroLine(w);
      IsLine(line) && StartsWith(line, "/*") && HasBlockEnd(line) && '\n' !in line && AreComments([line])
  {
    var line := ZeroLine(w);
    assert line[|line| - 1] == '0';
    assert line[..2] == "/*";
    assert line[2 + |w|] == '*' && line[2 + |w| + 1] == '/';
    HashFirst(line);
    assert line[0] == '/';
    BehindOne(false, line);
  }

  lemma ZeroRead(r: Reader, k: Text)
    requires r.comment.None? && r.open.None? && r.level == BOTTOM
    ensures ReadText(false, r, T(Token.Int(0), NewLine(k))) == ReadText(false, r, k)
  {
    assert TokenText(Token.Int(0)) == "0";
    assert Render(T(Token.Int(0), NewLine(k))) == "0" + "\n" + Render(k);
    LineThen(false, r, "0", Render(k));
    ZeroStep(r);
  }

  lemma ZeroStep(r: Reader)
    requires r.comment.None? && r.open.None? && r.level == BOTTOM
    ensures Step(false, r, "0") == r
  {
    assert "0"[1..] == "";
    assert HashAt(false, false, "0") == 1;
    assert CodeOf("0") == "0" && RemarkOf("0") == None;
    assert TrimStart("0") == "0" && TrimEnd("0") == "0";
    assert Depths(BOTTOM, false, false, "0") == Depths(CharLevel(BOTTOM, '0'), false, false, "");
    NoKeyword();
  }

  lemma NoKeyword()
    ensures !StartsDeclaration("0")
  {
  }

  function ZeroLayout(w: string): Layout { [DeclComments([], []), DeclComments([ZeroLine(w)], [])] }

  lemma SpreadLayout(a: string, w: string, b: string, t: string)
    requires IsIdent(a) && IsIdent(b) && IsIdent(t) && !HasBlockEnd(w) && '\n' !in w
    ensures ReadLayout(Render(SpreadText(a, w, b, t)), TwoTypes(a, b, t).declarations) == ZeroLayout(w)
  {
    var ds, second := TwoTypes(a, b, t).declarations, FmtAlias(b, [Ident(t)], End);
    var r := Start(ds);
    StartIs(a, b, t);
    var more := T(Token.Int(0), NewLine(second));
    SecondAlias(false, b, t);
    ZeroWhole(false, w, second);
    hide Start, FmtAlias, ReadText, Whole, Named, Behind, ZeroLine;
    FirstRead(r, a, Behind(w, more));
    NamedTwice(r, ZeroLine(w));
    var r1 := Named(r);
    CommentRead(r1, w, more);
    var r2 := r1.(top := r1.top + [ZeroLine(w)]);
    ZeroRead(r2, second);
    SecondRead(r2, b, t);
  }

  lemma StartIs(a: string, b: string, t: string)
    ensures
      var r := Start(TwoTypes(a, b, t).declarations);
      && r.layout == [DeclComments([], []), DeclComments([], [])] && r.next == 0 && r.top == [] && r.comment.None?
        && r.open.None?
      && r.level == BOTTOM
  {
    var ds := TwoTypes(a, b, t).declarations;
    assert NoComments(ds[0]) == DeclComments([], []) && NoComments(ds[1]) == DeclComments([], []);
    assert Start(ds).layout == [NoComments(ds[0]), NoComments(ds[1])];
  }

  /** The comment goes to the second declaration. */
  lemma NamedTwice(r: Reader, c: string)
    requires r.layout == [DeclComments([], []), DeclComments([], [])] && r.next == 0 && r.top == []
    requires r.comment.None? && r.open.None? && r.level == BOTTOM
    ensures
      var r1 := Named(r);
      && r1.top == [] && r1.comment.None? && r1.open.None? && r1.level == BOTTOM
      && Named(r1.(top := [c])).layout == [DeclComments([], []), DeclComments([c], [])] && Named(r1.(top := [c])).next == 2
  {
    var none: seq<string> := [];
    assert none + [c] == [c] && none + none == none;
    assert r.layout[0 := r.layout[0]] == r.layout;
  }

  lemma SecondRead(r: Reader, b: string, t: string)
    requires IsIdent(b) && IsIdent(t) && IsOutside(r)
    ensures
      var s := ReadText(false, r, FmtAlias(b, [Ident(t)], End));
      && s.layout == Named(r).layout
      && s.next == Named(r).next
  {
    SecondAlias(false, b, t);
    hide FmtAlias, Laid;
    AliasRead(false, r, b, [Ident(t)], End);
    assert Render(End) == "";
  }

  // ---- The formatted text ----

  /** What is printed behind `type a = `. */
  function Tail(w: string, b: string, t: string): Text { NewLine(Behind(w, FmtAlias(b, [Ident(t)], End))) }

  lemma PrintedText(a: string, w: string, b: string, t: string)
    requires IsIdent(a) && IsIdent(b) && IsIdent(t)
    ensures
      Render(FmtModule(TwoTypes(a, b, t), ZeroLayout(w)))
      == "type" + (" " + (a + (" " + ("=" + (" " + ("00" + Render(Tail(w, b, t))))))))
  {
    var ds, second := TwoTypes(a, b, t).declarations, FmtAlias(b, [Ident(t)], End);
    var first, written := FmtAlias(a, ZEROS, End), Append(FmtAlias(a, ZEROS, End), Remarks("", [ZeroLine(w)]));
    PrintedDecls(a, w, b, t);
    RenderAppend(written, second);
    RenderAppend(first, Remarks("", [ZeroLine(w)]));
    RemarkIs(w);
    FirstText(a);
    BehindText(w, second);
    AliasEnds(b, t);
    hide FmtAlias, FmtDecls, Behind, ZeroLine, Remarks, Render;
    var u := Render(second);
    assert Render(Tail(w, b, t)) == "\n" + (ZeroLine(w) + "\n" + u) by { TailText(w, b, t); }
    Associated(a, ZeroLine(w), u);
  }

  lemma TailText(w: string, b: string, t: string)
    ensures Render(Tail(w, b, t)) == "\n" + (ZeroLine(w) + "\n" + Render(FmtAlias(b, [Ident(t)], End)))
  {
    hide FmtAlias, Behind, ZeroLine;
    BehindText(w, FmtAlias(b, [Ident(t)], End));
  }

  lemma Associated(a: string, c: string, u: string)
    ensures
      ("type" + (" " + (a + (" " + ("=" + (" " + ("0" + ("0" + "\n")))))))) + (c + "\n") + u
      == "type" + (" " + (a + (" " + ("=" + (" " + ("00" + ("\n" + (c + "\n" + u))))))))
  {
    var x := "type" + (" " + (a + (" " + ("=" + " "))));
    assert "type" + (" " + (a + (" " + ("=" + (" " + ("0" + ("0" + "\n"))))))) == x + "00\n";
    assert x + "00\n" + (c + "\n") + u == x + ("00" + ("\n" + (c + "\n" + u)));
  }

  lemma FirstText(a: string)
    ensures Render(FmtAlias(a, ZEROS, End)) == "type" + (" " + (a + (" " + ("=" + (" " + ("0" + ("0" + "\n")))))))
  {
    ZerosAre(Nil, NewLine(End));
    assert TokenText(Token.Int(0)) == "0";
    hide FmtType;
    assert Render(NewLine(End)) == "\n";
    var zeros := T(Token.Int(0), T(Token.Int(0), NewLine(End)));
    assert Render(T(Token.Int(0), NewLine(End))) == "0" + "\n";
    assert Render(zeros) == "0" + ("0" + "\n");
    assert Render(T(Equal, W(" ", zeros))) == "=" + (" " + Render(zeros));
    assert Render(T(Ident(a), W(" ", T(Equal, W(" ", zeros))))) == a + (" " + ("=" + (" " + Render(zeros))));
  }

  lemma RemarkIs(w: string)
    ensures Render(Remarks("", [ZeroLine(w)])) == ZeroLine(w) + "\n"
  {
    var line: string := ZeroLine(w);
    assert line[0] == '/';
    assert [line][1..] == [] && TrimStart(line) == line;
    assert CommentLines("", [line]) == "" + line + "\n" + "";
  }

  lemma AliasEnds(b: string, t: string)
    requires IsIdent(t)
    ensures var s := Render(FmtAlias(b, [Ident(t)], End)); s != [] && s[|s| - 1] == '\n'
  {
    OneName(t, Nil, NewLine(End));
    hide FmtType;
    var head := T(Ident("type"), W(" ", T(Ident(b), W(" ", T(Equal, W(" ", T(Ident(t), End)))))));
    FormatAppend.Unfold();
    assert FmtAlias(b, [Ident(t)], End) == Append(head, NewLine(End));
    RenderAppend(head, NewLine(End));
    assert Render(NewLine(End)) == "\n";
  }

  lemma PrintedDecls(a: string, w: string, b: string, t: string)
    requires IsIdent(t)
    ensures
      var first, second := FmtAlias(a, ZEROS, End), FmtAlias(b, [Ident(t)], End);
      FmtModule(TwoTypes(a, b, t), ZeroLayout(w)) == Append(Append(first, Remarks("", [ZeroLine(w)])), second)
  {
    var ds, layout := TwoTypes(a, b, t).declarations, ZeroLayout(w);
    var first, second := FmtAlias(a, ZEROS, End), FmtAlias(b, [Ident(t)], End);
    AliasEnds(b, t);
    hide FmtAlias, Remarks, ZeroLine;
    assert Append(End, first) == first && Append(End, End) == End;
    assert Remarks("", []) == End by { NoRemarks(); }
    assert FmtDecl(Between(End, ds, 0, []), ds[0], []) == first;
    var written := Append(first, Remarks("", [ZeroLine(w)]));
    assert Between(first, ds, 1, [ZeroLine(w)]) == written;
    assert FmtDecls(first, ds, 1, layout) == Append(written, second);
    RenderAppend(written, second);
  }

  lemma NoRemarks()
    ensures Remarks("", []) == End
  {}

  lemma TokenThenGap(token: Token, s: string)
    requires Lexable(token) && token != Discard && Lexer.Lex(s).SomeTokens?
    ensures
      var r := Lexer.Lex(TokenText(token) + (" " + s));
      r.SomeTokens? && ListOf(r.tokens) == Cons(token, ListOf(Lexer.Lex(s).tokens))
  {
    assert AllBlank(" ");
    BlankIsGap(" ");
    FollowedByGap(token, " ", s);
    TokenLexed(token, " " + s);
    GapLexed(" ", s);
    var ts := Lexer.Lex(s).tokens;
    hide Lexable, Follows, Lexer.LexStep, TokenText;
    assert ([token] + ts)[1..] == ts;
  }

  lemma ZerosLexed(s: string)
    requires s != [] && s[0] == '\n' && Lexer.Lex(s).SomeTokens?
    ensures
      var r := Lexer.Lex("00" + s);
      && r.SomeTokens?
      && ListOf(r.tokens) == Cons(Token.Int(0), ListOf(Lexer.Lex(s).tokens))
  {
    DigitsLexed(false, "00", s);
    assert "" + "00" + s == "00" + s;
    assert DecimalValue("00") == 0 by { assert "00"[..1] == "0" && "0"[..0] == ""; }
    var ts := Lexer.Lex(s).tokens;
    assert ([Token.Int(0)] + ts)[1..] == ts;
  }

  lemma PrintedParsed(a: string, w: string, b: string, t: string)
    requires IsIdent(a) && IsIdent(b) && IsIdent(t) && !HasBlockEnd(w)
    ensures Parse(Render(FmtModule(TwoTypes(a, b, t), ZeroLayout(w)))) == Some(TwoTypes(a, b, t))
  {
    var m, tail := TwoTypes(a, b, t), Tail(w, b, t);
    PrintedText(a, w, b, t);
    SecondAlias(true, b, t);
    BehindSafe(true, w, FmtAlias(b, [Ident(t)], End));
    assert TokensOf(tail, Nil) == Cons(Token.Int(0), Rest(b, t)) by { FormatTokens.Unfold(); hide FmtAlias; }
    assert Render(tail)[0] == '\n';
    assert IsIdent("type");
    TwoTypesAre(a, b, t);
    hide FmtModule, TkDecls, WfModule, Tail, Render, Laid, Ends, TokensOf, IsIdent, Behind, ParseModule, Lexer.Lex;
    RenderedLexes(tail);
    HeadLexed(a, Render(tail));
    RoundTrip.ModuleParsed(m, [false, false]);
  }

  lemma HeadLexed(a: string, rest: string)
    requires IsIdent(a) && rest != [] && rest[0] == '\n' && Lexer.Lex(rest).SomeTokens?
    ensures
      var r := Lexer.Lex("type" + (" " + (a + (" " + ("=" + (" " + ("00" + rest)))))));
      && r.SomeTokens?
      && ListOf(r.tokens) == Cons(Ident("type"), Cons(Ident(a), Cons(Equal, Cons(Token.Int(0), ListOf(Lexer.Lex(rest).tokens)))))
  {
    assert IsIdent("type");
    assert Lexable(Ident("type")) && Lexable(Ident(a)) && Lexable(Equal);
    assert TokenText(Ident("type")) == "type" && TokenText(Ident(a)) == a && TokenText(Equal) == "=";
    hide Lexer.Lex, IsIdent, Lexable, TokenText, ListOf;
    var s := "00" + rest;
    ZerosLexed(rest);
    var s1 := "=" + (" " + s);
    TokenThenGap(Equal, s);
    var s2 := a + (" " + s1);
    TokenThenGap(Ident(a), s1);
    TokenThenGap(Ident("type"), s2);
  }

  lemma ZeroIsLeft(w: string)
    requires !HasBlockEnd(w)
    ensures !LayoutSkips(ZeroLayout(w))
  {
    var line: string := ZeroLine(w);
    var s := line + "\n";
    assert line[0] == '/' && [line][1..] == [] && TrimStart(line) == line;
    assert CommentLines("", [line]) == "" + line + "\n" + "" == s;
    assert s[2..] == w + "*/" + " 0\n";
    BlockEnds(w, " 0\n");
    assert " 0\n"[1..] == "0\n";
    assert !Skips("0\n") && !Skips(" 0\n");
    assert !Skips(s);
    assert !RemarksSkip("", ZeroLayout(w)[1].leading);
  }

  /**
   * A token lost where two merge and one found behind a comment may make up for each other: this source is
   * formatted to the program it is, although two tokens merge and a comment is not skipped.
   */
  lemma FaultsMayCancel(a: string, w: string, b: string, t: string)
    requires IsIdent(a) && IsIdent(b) && IsIdent(t) && !HasBlockEnd(w) && '\n' !in w
    ensures
      var source, m := Render(SpreadText(a, w, b, t)), TwoTypes(a, b, t);
      FormatsTo(source, m, m) && !ModuleApart(m) && !LayoutSkips(KeptOf(source))
  {
    SpreadParsed(a, w, b, t);
    SpreadLayout(a, w, b, t);
    PrintedParsed(a, w, b, t);
    TwoTypesAre(a, b, t);
    ZeroIsLeft(w);
    hide Parse, Render, FmtModule, ReadLayout, SpreadText, ModuleApart, LayoutSkips, ZeroLayout;
  }
}
