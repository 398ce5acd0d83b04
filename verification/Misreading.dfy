/** A text whose comments are printed where they are not read back: src/fmt.rs:136-176. */
module Misreading {
  import opened Tokens
  import opened Ast
  import opened Parsing
  import opened WellFormed
  import Lexer
  import RoundTrip
  import opened Rendering
  import opened Comments
  import opened Formatting
  import opened FormatTokens
  import opened FormatSafety
  import opened FormatSource
  import opened Annotations
  import FormatAppend
  import opened CommentLayout
  import opened KeptComments
  import opened PrintedLines
  import opened PrintedLevels
  import LayoutLines
  import opened LayoutRead
  import opened Idempotence

  /** The type named `node`. */
  const NODE_TYPE: TypeText := [Ident("node")]

  /** An alias of it, two callables and an alias. */
  function Misread(a: string, f: Callable, g: Callable, b: string): Module
  {
    Module([TypeAlias(a, NODE_TYPE), Program(f), Program(g), TypeAlias(b, NODE_TYPE)])
  }

  /** The first alias, with the name of its type on a line of its own. */
  function SplitAlias(a: string): Text
  {
    T(Ident("type"), W(" ", T(Ident(a), W(" ", T(Equal, NewLine(T(Ident("node"), NewLine(End))))))))
  }

  /** The comments are those of `f`. */
  function LayoutOf(comments: seq<ChainComments>): Layout
  {
    [DeclComments([], []), DeclComments([], comments), DeclComments([], []), DeclComments([], [])]
  }

  /** The module as it is printed, but for that line end. */
  function MisreadText(a: string, f: Callable, g: Callable, b: string, comments: seq<ChainComments>): Text
  {
    FmtDecls(SplitAlias(a), Misread(a, f, g, b).declarations, 1, LayoutOf(comments))
  }

  lemma LayoutIsKept(comments: seq<ChainComments>)
    requires ChainsKept(comments) && ChainsSkip(comments)
    ensures LayoutKept(LayoutOf(comments)) && LayoutSkips(LayoutOf(comments))
  {
    BareSkips();
    assert AreComments([]) by { NoComment(); }
    hide AreComments, RemarksSkip, IsChainKept, ChainSkips;
  }

  lemma NodeTypeReads()
    ensures WfType(NODE_TYPE) && Apart(NODE_TYPE) && forall l :: TypeLevel(l, NODE_TYPE) == l
  {
    assert IsIdent("node");
    assert NODE_TYPE[1..] == [];
    assert forall l :: TypeLevel(TokenLevel(l, Ident("node")), []) == l;
  }

  lemma SplitAliasWhole(a: string)
    requires IsIdent(a)
    ensures Whole(true, SplitAlias(a)) && Whole(false, SplitAlias(a))
    ensures forall k :: TokensOf(SplitAlias(a), k) == TkDecl(TypeAlias(a, NODE_TYPE), false, k)
  {
    assert IsIdent("node") && IsIdent("type");
    assert NODE_TYPE[1..] == [];
    assert forall k :: TkType(NODE_TYPE, k) == Cons(Ident("node"), k);
    hide IsIdent;
    UnfoldEnds();
    FormatTokens.Unfold();
    FormatSafety.Unfold(true);
    FormatSafety.Unfold(false);
    hide Laid, Runs, Ends, TokensOf, IsGap;
  }

  lemma MisreadIsWellFormed(a: string, f: Callable, g: Callable, b: string)
    requires IsIdent(a) && IsIdent(b) && WfDecl(Program(f)) && WfDecl(Program(g))
    ensures WfModule(Misread(a, f, g, b))
  {
    NodeTypeReads();
    hide WfCallable, WfType;
  }

  lemma MisreadIsApart(a: string, f: Callable, g: Callable, b: string)
    requires CallableApart(f) && CallableApart(g)
    ensures ModuleApart(Misread(a, f, g, b))
  {
    NodeTypeReads();
    hide CallableApart, Apart;
  }

  lemma MisreadParsed(a: string, f: Callable, g: Callable, b: string, comments: seq<ChainComments>)
    requires IsIdent(a) && IsIdent(b) && WfDecl(Program(f)) && WfDecl(Program(g)) && CallableApart(f) && CallableApart(g)
    requires ChainsKept(comments) && ChainsSkip(comments)
    ensures Parse(Render(MisreadText(a, f, g, b, comments))) == Some(Misread(a, f, g, b))
    ensures ModuleReadable(Misread(a, f, g, b))
  {
    var m := Misread(a, f, g, b);
    MisreadIsWellFormed(a, f, g, b);
    MisreadIsApart(a, f, g, b);
    LikeItself(m);
    hide Misread, WfModule, ModuleApart, ModuleLike, ModuleReadable, MisreadText, Parse;
    ModuleIsReadable(m, m);
    MisreadTextParsed(a, f, g, b, comments);
  }

  lemma MisreadTextParsed(a: string, f: Callable, g: Callable, b: string, comments: seq<ChainComments>)
    requires IsIdent(a) && WfModule(Misread(a, f, g, b)) && ModuleApart(Misread(a, f, g, b))
    requires ChainsKept(comments) && ChainsSkip(comments)
    ensures Parse(Render(MisreadText(a, f, g, b, comments))) == Some(Misread(a, f, g, b))
  {
    var m := Misread(a, f, g, b);
    var ds := m.declarations;
    SplitAliasWhole(a);
    LayoutIsKept(comments);
    LastCommasFirst(ds);
    assert ds[0] == TypeAlias(a, NODE_TYPE);
    hide WfDecl, DeclApart, Laid, Ends, Render, TokensOf, FmtDecls, SplitAlias, LayoutSkips, LayoutOf, ChainsKept,
         ChainsSkip, Misread,
         TkDecl, Lexer.Lex, ParseModule;
    DeclsWhole(true, SplitAlias(a), ds, 1, LayoutOf(comments));
    RenderedLexes(MisreadText(a, f, g, b, comments));
    DeclsTokens(SplitAlias(a), ds, 1, LayoutOf(comments));
    RoundTrip.ModuleParsed(m, LastCommas(ds));
  }

  lemma LikeItself(m: Module)
    ensures ModuleLike(m, m)
  {}

  lemma LastCommasFirst(ds: seq<Decl>)
    requires ds != [] && ds[0].TypeAlias?
    ensures TkDecls(ds, LastCommas(ds)) == TkDecl(ds[0], false, TkDecls(ds[1..], LastCommas(ds[1..])))
  {
    hide TkDecl;
    assert LastCommas(ds)[1..] == LastCommas(ds[1..]);
  }

  // ---- What is read of it ----

  /** The reader behind two lines that are taken for declarations. */
  function Twice(r: Reader): Reader { Named(Named(r)).(chain := 0) }

  /** The second line is taken for a declaration, and all others for the one behind theirs. */
  lemma SplitAliasReads(a: string, r: Reader)
    requires IsIdent(a) && IsReady(r) && r.next + 1 < |r.layout|
    ensures Reads(false, r, SplitAlias(a), Twice(r))
  {
    SplitAliasWhole(a);
    hide Laid, Ends, ReadText, TokensOf, SplitAlias, Twice;
    forall u | Laid(false, u) ensures ReadText(false, r, Append(SplitAlias(a), u)) == ReadText(false, Twice(r), u) {
      AppendSafe(false, SplitAlias(a), u);
      SplitAliasRead(a, r, u);
    }
  }

  lemma SplitAliasRead(a: string, r: Reader, u: Text)
    requires IsReady(r) && r.next + 1 < |r.layout| && Laid(false, Append(SplitAlias(a), u))
    ensures ReadText(false, r, Append(SplitAlias(a), u)) == ReadText(false, Twice(r), u)
  {
    var second := T(Ident("node"), NewLine(u));
    var rest := W(" ", T(Ident(a), W(" ", T(Equal, NewLine(second)))));
    assert Append(SplitAlias(a), u) == T(Ident("type"), rest) by { FormatAppend.Unfold(); }
    SplitAliasThrough(a, r.level, second, u);
    hide Laid, ReadText, Through, SplitAlias, SetLeading;
    PlainLine(false, r, "type", rest, r.level, second);
    assert Named(r).(level := r.level) == Named(r);
    LayoutLines.RestLaid(r.level, T(Ident("type"), rest));
    NodeLineRead(Named(r), u);
  }

  lemma NodeLineRead(r: Reader, u: Text)
    requires IsReady(r) && Laid(false, T(Ident("node"), NewLine(u)))
    requires Through(r.level, T(Ident("node"), NewLine(u))) == Some(Line(r.level, None, u))
    ensures ReadText(false, r, T(Ident("node"), NewLine(u))) == ReadText(false, Named(r).(chain := 0), u)
  {
    hide Laid, ReadText, Through, SetLeading;
    DeclLine(false, r, "node", NewLine(u), Line(r.level, None, u));
  }

  lemma SplitAliasThrough(a: string, l: Level, second: Text, u: Text)
    ensures
      Through(l, T(Ident("type"), W(" ", T(Ident(a), W(" ", T(Equal, NewLine(second))))))) == Some(Line(l, None, second))
    ensures Through(l, T(Ident("node"), NewLine(u))) == Some(Line(l, None, u))
  {
    PrintedLevels.Unfold();
    hide Through;
  }

  /** The reader behind the first alias. */
  function Shifted(ds: seq<Decl>): Reader { Twice(Start(ds)) }

  lemma ShiftedIs(a: string, f: Callable, g: Callable, b: string)
    ensures
      var ds := Misread(a, f, g, b).declarations;
      var r := Shifted(ds);
      && r.layout == Start(ds).layout && |r.layout| == 4 && r.layout[2] == NoComments(Program(g))
        && r.layout[3] == NoComments(ds[3])
      && r.next == 2 && r.top == [] && IsReady(r) && r.level == BOTTOM && r.chain == 0
  {
    var ds := Misread(a, f, g, b).declarations;
    var s := Start(ds);
    NothingLeads(s.layout, 0);
    NothingLeads(s.layout, 1);
  }

  lemma NothingLeads(layout: Layout, d: nat)
    requires d < |layout|
    ensures SetLeading(layout, d, []) == layout
  {
    assert layout[d].leading + [] == layout[d].leading;
  }

  /** The rows of `f` are read into those of `g`, as far as they go. */
  predicate IsMisread(layout: Layout, f: Callable, g: Callable, comments: seq<ChainComments>)
  {
    && |layout| == 4 && |layout[2].chains| == |g.chains|
    && forall k :: 0 <= k < |g.chains| ==>
         layout[2].chains[k] == if k < |f.chains| then ReadChain(false, BOTTOM, f.chains[k], ChainAt(comments, k), k) else BARE
  }

  lemma MisreadRow(a: string, f: Callable, g: Callable, b: string, comments: seq<ChainComments>)
    requires WfCallable(f) && WfCallable(g) && IsFlat(HeaderLevel(BOTTOM, f))
    ensures
      var r := Shifted(Misread(a, f, g, b).declarations);
      var s := AfterCallable(false, r, f, comments);
      && IsMisread(s.layout, f, g, comments) && s.next == 3 && s.top == [] && IsReady(s)
        && s.level == HeaderLevel(BOTTOM, f)
      && (forall i :: 0 <= i < 4 && i != 2 ==> s.layout[i] == r.layout[i]) && s.layout[2].leading == r.layout[2].leading
  {
    var r := Shifted(Misread(a, f, g, b).declarations);
    ShiftedIs(a, f, g, b);
    HeaderBraces(BOTTOM, f);
    hide Shifted, HeaderLevel, Marks, WfCallable, ReadChain;
    var body := Opened(r, f);
    NothingLeads(r.layout, 2);
    assert body.layout == r.layout && body.level.brace == 1 && IsFlat(body.level) && NoComments(Program(g)).chains == seq(|g.chains|, _ => BARE);
    hide Opened, Start, Misread, NoComments, ChainAt;
    MarksRow(false, body, f.chains, comments, |f.chains|);
    MarksKeep(false, body, f.chains, comments, |f.chains|);
    forall k | 0 <= k < |f.chains|
      ensures ReadChain(false, body.level, f.chains[k], ChainAt(comments, k), k)
              == ReadChain(false, BOTTOM, f.chains[k], ChainAt(comments, k), k)
    {
      SameSight(false, body.level, BOTTOM, f.chains[k], ChainAt(comments, k), k);
    }
  }

  /** Behind unbalanced annotations nothing is read. */
  lemma UnseenRow(r: Reader, c: Callable, comments: seq<ChainComments>)
    requires IsReady(r) && r.top == [] && WfCallable(c) && !IsFlat(HeaderLevel(r.level, c))
    ensures
      var s := AfterCallable(false, r, c, comments);
      s.layout == r.layout && s.top == [] && s.open.None? && s.next == r.next + 1
  {
    NothingLeads(r.layout, r.next);
    hide HeaderLevel, WfCallable;
  }

  lemma MisreadSteps(r: Reader, a: string, f: Callable, g: Callable, b: string, comments: seq<ChainComments>)
    ensures
      var layout := LayoutOf(comments);
      AfterDecls(false, r, Misread(a, f, g, b).declarations, 1, layout)
      == AfterDecl(false, AfterDecl(false, AfterDecl(false, r, Program(f), layout[1]), Program(g), layout[2]),
                   TypeAlias(b, NODE_TYPE), layout[3])
  {
    var layout := LayoutOf(comments);
    var ds := Misread(a, f, g, b).declarations;
    hide AfterDecl;
    var r1 := AfterDecl(false, r, ds[1], DeclAt(layout, 1));
    var r2 := AfterDecl(false, r1, ds[2], DeclAt(layout, 2));
    var r3 := AfterDecl(false, r2, ds[3], DeclAt(layout, 3));
    assert AfterDecls(false, r3, ds, 4, layout) == r3;
    assert AfterDecls(false, r2, ds, 3, layout) == r3;
    assert AfterDecls(false, r1, ds, 2, layout) == r3;
  }

  lemma WithoutComments(r: Reader, d: Decl, comments: seq<ChainComments>)
    requires r.open.None?
    ensures
      AfterDecl(false, r, d, DeclComments([], comments))
      == match d
         case Node(c) => AfterCallable(false, r, c, comments)
         case Program(c) => AfterCallable(false, r, c, comments)
         case _ => LayoutLines.AfterPlain(r, d)
  {
    assert r.top + [] == r.top;
    assert Again(false, "", []) == [];
    assert Kept(r, []) == r;
    hide AfterCallable;
  }

  /** The four declarations, the first of which is read as two. */
  lemma MisreadInTurn(a: string, f: Callable, g: Callable, b: string, comments: seq<ChainComments>)
    requires WfCallable(f) && WfCallable(g) && IsFlat(HeaderLevel(BOTTOM, f))
             && !IsFlat(HeaderLevel(HeaderLevel(BOTTOM, f), g))
    ensures
      var ds := Misread(a, f, g, b).declarations;
      var r2 := AfterCallable(false, AfterCallable(false, Shifted(ds), f, comments), g, []);
      AfterDecls(false, Shifted(ds), ds, 1, LayoutOf(comments)) == LayoutLines.AfterPlain(r2, TypeAlias(b, NODE_TYPE))
  {
    hide AfterCallable, AfterDecls, HeaderLevel, WfCallable, AfterDecl, ReadChain, Shifted, ChainAt, Start, NoComments,
         IsFlat;
    var r := Shifted(Misread(a, f, g, b).declarations);
    ShiftedIs(a, f, g, b);
    MisreadSteps(r, a, f, g, b, comments);
    MisreadRow(a, f, g, b, comments);
    var r1 := AfterCallable(false, r, f, comments);
    UnseenRow(r1, g, []);
    var r2 := AfterCallable(false, r1, g, []);
    hide IsMisread, Misread;
    WithoutComments(r, Program(f), comments);
    WithoutComments(r1, Program(g), []);
    WithoutComments(r2, TypeAlias(b, NODE_TYPE), []);
  }

  lemma MisreadEnd(a: string, f: Callable, g: Callable, b: string, comments: seq<ChainComments>)
    requires WfCallable(f) && WfCallable(g) && IsFlat(HeaderLevel(BOTTOM, f))
             && !IsFlat(HeaderLevel(HeaderLevel(BOTTOM, f), g))
    ensures
      var ds := Misread(a, f, g, b).declarations;
      var s := AfterDecls(false, Shifted(ds), ds, 1, LayoutOf(comments));
      IsMisread(Finish(s), f, g, comments) && Finish(s)[2].leading == []
      && forall i :: 0 <= i < 4 && i != 2 ==> Finish(s)[i] == Start(ds).layout[i]
  {
    assert NoComments(Program(g)).leading == [];
    hide AfterCallable, AfterDecls, HeaderLevel, WfCallable, AfterDecl, ReadChain, Shifted, ChainAt, Start, NoComments,
         IsFlat;
    var r := Shifted(Misread(a, f, g, b).declarations);
    ShiftedIs(a, f, g, b);
    MisreadRow(a, f, g, b, comments);
    UnseenRow(AfterCallable(false, r, f, comments), g, []);
    MisreadInTurn(a, f, g, b, comments);
    hide Misread;
  }

  lemma MisreadLayout(a: string, f: Callable, g: Callable, b: string, comments: seq<ChainComments>)
    requires IsIdent(a) && IsIdent(b) && WfDecl(Program(f)) && WfDecl(Program(g))
    requires IsFlat(HeaderLevel(BOTTOM, f)) && !IsFlat(HeaderLevel(HeaderLevel(BOTTOM, f), g))
    requires ChainsKept(comments) && ChainsSkip(comments)
    ensures
      var ds := Misread(a, f, g, b).declarations;
      var layout := ReadLayout(Render(MisreadText(a, f, g, b, comments)), ds);
      IsMisread(layout, f, g, comments) && layout[2].leading == []
      && forall i :: 0 <= i < 4 && i != 2 ==> layout[i] == Start(ds).layout[i]
  {
    var ds := Misread(a, f, g, b).declarations;
    MisreadIsWellFormed(a, f, g, b);
    ShiftedIs(a, f, g, b);
    LayoutIsKept(comments);
    hide Reads, WfCallable, Render, FmtDecls, SplitAlias, AfterDecls, AfterDecl, HeaderLevel, ReadChain, LayoutKept,
         LayoutOf, Shifted,
         LayoutSkips, ChainsKept, ChainsSkip, IsMisread;
    SplitAliasReads(a, Start(ds)) by { StartIsReady(ds); }
    assert Shifted(ds) == Twice(Start(ds)) by { ShiftedTwice(ds); }
    DeclsRead(false, Start(ds), SplitAlias(a), Shifted(ds), ds, 1, LayoutOf(comments));
    ReadsAll(false, Start(ds), MisreadText(a, f, g, b, comments), AfterDecls(false, Shifted(ds), ds, 1, LayoutOf(comments)));
    MisreadEnd(a, f, g, b, comments);
  }

  lemma StartIsReady(ds: seq<Decl>)
    requires |ds| > 1
    ensures IsReady(Start(ds)) && Start(ds).next + 1 < |Start(ds).layout|
  {}

  lemma ShiftedTwice(ds: seq<Decl>)
    ensures Shifted(ds) == Twice(Start(ds))
  {}

  /** What is misread is skipped where it is written, for it was so where it was read. */
  lemma MisreadSkips(layout: Layout, ds: seq<Decl>, f: Callable, g: Callable, comments: seq<ChainComments>)
    requires IsMisread(layout, f, g, comments) && layout[2].leading == [] && ChainsKept(comments)
             && ChainsSkip(comments) && |ds| == 4
    requires forall i :: 0 <= i < 4 && i != 2 ==> layout[i] == Start(ds).layout[i]
    ensures LayoutSkips(layout)
  {
    BareSkips();
    hide Behind, RemarksSkip, CommentLines, Again, ChainAt;
    forall k | 0 <= k < |g.chains| ensures ChainSkips(layout[2].chains[k]) {
      if k < |f.chains| { ReadSkips(f.chains[k], ChainAt(comments, k), k) by { KeptAt(comments, k); ChainsSkipAt(comments, k); } }
    }
  }

  lemma ReadSkips(chain: Chain, c: ChainComments, j: nat)
    requires IsChainKept(c) && ChainSkips(c)
    ensures ChainSkips(ReadChain(false, BOTTOM, chain, c, j))
  {
    IndentSpaces();
    BareSkips();
    AgainIsWritten(false, INDENT, c.leading);
    hide Behind, Skips, CommentLines, Again, IsLongStruct;
  }

  /**
   * A type name on a line of its own that is a keyword is counted as a declaration. Then the comments and blank
   * lines of one callable are written into the next one; if brackets do not match there, formatting again takes
   * them out.
   */
  lemma MisreadCommentsAreLost(
    a: string, f: Callable, g: Callable, b: string, comments: seq<ChainComments>, k: nat)
    requires IsIdent(a) && IsIdent(b) && WfDecl(Program(f)) && WfDecl(Program(g)) && CallableApart(f) && CallableApart(g)
    requires IsFlat(HeaderLevel(BOTTOM, f)) && !IsFlat(HeaderLevel(HeaderLevel(BOTTOM, f), g))
    requires ChainsKept(comments) && ChainsSkip(comments) && k < |f.chains| && k < |g.chains|
    requires var c := ChainAt(comments, k); (c.blank && k > 0) || c.leading != []
    ensures
      var source := Render(MisreadText(a, f, g, b, comments));
      && Parse(source) == Some(Misread(a, f, g, b)) && FormatText(source).Some?
      && FormatText(FormatText(source).value) != FormatText(source)
  {
    var source := Render(MisreadText(a, f, g, b, comments));
    var ds := Misread(a, f, g, b).declarations;
    MisreadParsed(a, f, g, b, comments);
    MisreadLayout(a, f, g, b, comments);
    var layout := ReadLayout(source, ds);
    MisreadSkips(layout, ds, f, g, comments);
    MisreadIsLost(layout, a, f, g, b, comments, k);
    hide HeaderLevel, DeclsLevel, WfCallable, CallableApart, Render, MisreadText, ReadLayout, Parse, FormatText,
         ModuleReadable,
         LayoutSkips, IsMisread, ChainsKept, ChainsSkip, Misread;
    FormattingIsIdempotentIff(source);
  }

  lemma MisreadIsLost(layout: Layout, a: string, f: Callable, g: Callable, b: string, comments: seq<ChainComments>, k: nat)
    requires IsMisread(layout, f, g, comments) && k < |f.chains| && k < |g.chains|
    requires !IsFlat(HeaderLevel(HeaderLevel(BOTTOM, f), g)) && ChainsKept(comments)
    requires var c := ChainAt(comments, k); (c.blank && k > 0) || c.leading != []
    ensures LosesComments(Misread(a, f, g, b).declarations, layout)
  {
    var ds := Misread(a, f, g, b).declarations;
    MisreadLevel(a, f, g, b);
    KeptAt(comments, k);
    IndentSpaces();
    AgainIsWritten(false, INDENT, ChainAt(comments, k).leading);
    hide HeaderLevel, DeclsLevel, Behind, Again, CommentLines, IsLongStruct, ChainsKept;
    assert IsLost(ds, layout, 2, k);
  }

  lemma MisreadLevel(a: string, f: Callable, g: Callable, b: string)
    ensures DeclsLevel(BOTTOM, Misread(a, f, g, b).declarations, 3) == HeaderLevel(HeaderLevel(BOTTOM, f), g)
  {
    var ds := Misread(a, f, g, b).declarations;
    NodeTypeReads();
    hide HeaderLevel, TypeLevel;
    assert DeclsLevel(BOTTOM, ds, 1) == DeclLevel(DeclsLevel(BOTTOM, ds, 0), ds[0]) == BOTTOM;
    assert DeclsLevel(BOTTOM, ds, 2) == HeaderLevel(BOTTOM, f);
  }
}
