/** Formatting formatted text again, where comments and blank lines are read from the text each time. */
module Idempotence {
  import opened Tokens
  import opened Ast
  import opened Parsing
  import opened WellFormed
  import RoundTrip
  import opened Rendering
  import opened Formatting
  import opened FormatTokens
  import opened FormatSafety
  import opened FormatSource
  import opened Formatter
  import opened Annotations
  import FormatAppend
  import opened Comments
  import opened CommentLayout
  import opened KeptComments
  import opened PrintedLines
  import opened PrintedLevels
  import LayoutLines
  import opened LayoutRead

  /** format_source, src/fmt.rs:11-19. */
  function FormatText(source: string): Option<string>
  {
    match Parse(source)
    case None => None
    case Some(m) => Some(Render(FmtModule(m, ReadLayout(source, m.declarations))))
  }

  /** The source is the program `m`, and its formatted text the program `n`. */
  predicate FormatsTo(source: string, m: Module, n: Module)
  {
    Parse(source) == Some(m) && FormatText(source).Some? && Parse(FormatText(source).value) == Some(n)
  }

  /**
   * A comment or a blank line of a chain that is not read back: behind annotations whose parentheses or brackets do
   * not match, or behind the last line of a long struct literal.
   */
  predicate IsLost(ds: seq<Decl>, layout: Layout, i: nat, j: nat)
  {
    && i < |ds| && j < |ChainsOf(ds[i])|
    && var c := ChainAt(DeclAt(layout, i).chains, j);
       || (!IsFlat(DeclsLevel(BOTTOM, ds, i + 1)) && ((c.blank && j > 0) || c.leading != [] || c.trailing.Some?))
       || (c.trailing.Some? && IsLongStruct(ChainsOf(ds[i])[j].source))
  }

  ghost predicate LosesComments(ds: seq<Decl>, layout: Layout) { exists i: nat, j: nat :: IsLost(ds, layout, i, j) }

  // ---- Layouts that print the same ----

  predicate SameRemarks(indent: string, a: seq<string>, b: seq<string>)
  {
    CommentLines(indent, a) == CommentLines(indent, b) && (a == [] <==> b == [])
  }

  predicate SameChain(j: nat, a: ChainComments, b: ChainComments)
  {
    (a.blank && j > 0) == (b.blank && j > 0) && SameRemarks(INDENT, a.leading, b.leading) && a.trailing == b.trailing
  }

  predicate SameChains(n: nat, a: seq<ChainComments>, b: seq<ChainComments>)
  {
    forall k: nat :: k < n ==> SameChain(k, ChainAt(a, k), ChainAt(b, k))
  }

  lemma SameBreak(acc: Text, group: seq<Row>, i: nat, a: ChainComments, b: ChainComments)
    requires SameChain(i, a, b) && (i == 0 ==> group == [])
    ensures (if Breaks(a) then Break(acc, group, i, a) else acc) == (if Breaks(b) then Break(acc, group, i, b) else acc)
    ensures (if Breaks(a) then [] else group) == (if Breaks(b) then [] else group)
  {
    hide CommentLines, BlankLine;
    if i == 0 && a.leading == [] {
      AppendEnd(acc);
      assert Flush(acc, []) == acc;
    }
  }

  lemma {:induction false} BodySame(acc: Text, group: seq<Row>, chains: seq<Chain>, i: nat, a: seq<ChainComments>,
      b: seq<ChainComments>)
    requires i <= |chains| && SameChains(|chains|, a, b) && (i == 0 ==> group == [])
    ensures FmtBody(acc, group, chains, i, a) == FmtBody(acc, group, chains, i, b)
    decreases |chains| - i
  {
    hide IsMultiline, FmtMultilineChain, Break, SameChains, Flush, ChainAt, Breaks;
    if i < |chains| {
      var c, e := ChainAt(a, i), ChainAt(b, i);
      assert SameChain(i, c, e) by { SameAt(|chains|, a, b, i); }
      SameBreak(acc, group, i, c, e);
      var acc1 := if Breaks(c) then Break(acc, group, i, c) else acc;
      var group1 := if Breaks(c) then [] else group;
      if IsMultiline(chains[i]) {
        BodySame(Append(Flush(acc1, group1), FmtMultilineChain(chains[i], c.trailing, End)), [], chains, i + 1, a, b);
      } else {
        BodySame(acc1, group1 + [Row(chains[i], c.trailing)], chains, i + 1, a, b);
      }
    }
  }

  lemma SameAt(n: nat, a: seq<ChainComments>, b: seq<ChainComments>, i: nat)
    requires SameChains(n, a, b) && i < n
    ensures SameChain(i, ChainAt(a, i), ChainAt(b, i))
  {}

  lemma DeclSame(acc: Text, d: Decl, a: seq<ChainComments>, b: seq<ChainComments>)
    requires SameChains(|ChainsOf(d)|, a, b)
    ensures FmtDecl(acc, d, a) == FmtDecl(acc, d, b)
  {
    hide FmtHeader, FmtBody, SameChains;
    if d.Node? || d.Program? {
      var kind := if d.Program? then PROGRAM else if d.callable.isExtern then EXTERN_NODE else NODE;
      BodySame(Append(acc, FmtHeader(kind, d.callable, End)), [], d.callable.chains, 0, a, b);
    }
  }

  predicate SameDecl(d: Decl, a: DeclComments, b: DeclComments)
  {
    SameRemarks("", a.leading, b.leading) && SameChains(|ChainsOf(d)|, a.chains, b.chains)
  }

  lemma {:induction false} DeclsSame(acc: Text, ds: seq<Decl>, i: nat, p: Layout, q: Layout)
    requires i <= |ds| && forall k :: 0 <= k < |ds| ==> SameDecl(ds[k], DeclAt(p, k), DeclAt(q, k))
    ensures FmtDecls(acc, ds, i, p) == FmtDecls(acc, ds, i, q)
    decreases |ds| - i
  {
    hide FmtDecl, SameChains, ChainsOf, BlankLine, NeedsBlankBetween, CommentLines, DeclAt;
    if i < |ds| {
      assert SameDecl(ds[i], DeclAt(p, i), DeclAt(q, i));
      var acc1 := Between(acc, ds, i, DeclAt(p, i).leading);
      assert acc1 == Between(acc, ds, i, DeclAt(q, i).leading);
      DeclSame(acc1, ds[i], DeclAt(p, i).chains, DeclAt(q, i).chains);
      DeclsSame(FmtDecl(acc1, ds[i], DeclAt(p, i).chains), ds, i + 1, p, q);
    }
  }

  lemma RemarksAgain(indent: string, cs: seq<string>)
    requires AreComments(cs) && AllSpaces(indent)
    ensures SameRemarks(indent, Again(false, indent, cs), cs) && AreComments(Again(false, indent, cs))
  {
    AgainIsWritten(false, indent, cs);
    AgainBehind(false, indent, cs);
  }

  lemma BackAt(keen: bool, ds: seq<Decl>, layout: Layout, i: nat, j: nat)
    requires i < |ds| && j < |ChainsOf(ds[i])|
    ensures
      ChainAt(DeclAt(ReadBack(keen, ds, layout), i).chains, j)
      == ReadChain(keen, DeclsLevel(BOTTOM, ds, i + 1), ChainsOf(ds[i])[j], ChainAt(DeclAt(layout, i).chains, j), j)
  {
    ReadBackAt(keen, ds, layout, i);
    assert DeclsLevel(BOTTOM, ds, i + 1) == DeclLevel(DeclsLevel(BOTTOM, ds, i), ds[i]);
    hide ReadBack, DeclsLevel, ReadChain, ChainsOf;
  }

  lemma BackLeading(keen: bool, ds: seq<Decl>, layout: Layout, i: nat)
    requires i < |ds|
    ensures DeclAt(ReadBack(keen, ds, layout), i).leading == Again(false, "", DeclAt(layout, i).leading)
  {
    ReadBackAt(keen, ds, layout, i);
    hide ReadBack, DeclsLevel, ReadChain;
  }

  /** A chain whose comments are not lost is printed the same with what is read back. */
  lemma ChainBack(ds: seq<Decl>, layout: Layout, i: nat, j: nat)
    requires i < |ds| && j < |ChainsOf(ds[i])| && LayoutKept(layout)
    ensures
      var c, e := ChainAt(DeclAt(layout, i).chains, j), ChainAt(DeclAt(ReadBack(false, ds, layout), i).chains, j);
      && IsChainKept(e) && ChainSkips(e)
      && (!IsLost(ds, layout, i, j) ==> SameChain(j, e, c))
  {
    BackAt(false, ds, layout, i, j);
    var c := ChainAt(DeclAt(layout, i).chains, j);
    DeclKeptAt(layout, i);
    KeptAt(DeclAt(layout, i).chains, j);
    ChainsSkipAt(DeclAt(layout, i).chains, j);
    IndentSpaces();
    hide ReadBack, DeclsLevel, Again, IsLongStruct, Behind, CommentLines, Skips, ChainAt, DeclAt, ChainsKept,
         ChainsSkip, LayoutKept, DeclKept;
    RemarksAgain(INDENT, c.leading);
    BareSkips();
    assert AreComments([]) by { NoComment(); }
  }

  lemma ChainsSkipAt(comments: seq<ChainComments>, i: nat)
    requires ChainsSkip(comments)
    ensures ChainSkips(ChainAt(comments, i))
  {
    BareSkips();
    hide ChainSkips;
  }

  lemma DeclBack(ds: seq<Decl>, layout: Layout, i: nat)
    requires i < |ds| && LayoutKept(layout)
    ensures DeclKept(DeclAt(ReadBack(false, ds, layout), i))
    ensures !LosesComments(ds, layout) ==> SameDecl(ds[i], DeclAt(ReadBack(false, ds, layout), i), DeclAt(layout, i))
  {
    var back := ReadBack(false, ds, layout);
    BackLeading(false, ds, layout, i);
    ReadBackAt(false, ds, layout, i);
    assert |DeclAt(back, i).chains| == |ChainsOf(ds[i])|;
    DeclKeptAt(layout, i);
    IndentSpaces();
    RemarksAgain("", DeclAt(layout, i).leading);
    hide ReadBack, DeclsLevel, Again, Behind, CommentLines, Skips, DeclAt, ChainsOf, IsChainKept, ChainSkips,
         SameChain, IsLost;
    forall j: nat | j < |ChainsOf(ds[i])|
      ensures
        var c, e := ChainAt(DeclAt(layout, i).chains, j), ChainAt(DeclAt(back, i).chains, j);
        IsChainKept(e) && ChainSkips(e) && (!LosesComments(ds, layout) ==> SameChain(j, e, c))
    {
      ChainBack(ds, layout, i, j);
    }
  }

  lemma BackIsKept(ds: seq<Decl>, layout: Layout)
    requires LayoutKept(layout)
    ensures LayoutKept(ReadBack(false, ds, layout))
  {
    var back := ReadBack(false, ds, layout);
    BackLength(false, ds, layout);
    hide ReadBack, DeclKept;
    forall i | 0 <= i < |back| ensures DeclKept(back[i]) { DeclBack(ds, layout, i); }
  }

  lemma KeptCommentsPrintSame(m: Module, layout: Layout)
    requires LayoutKept(layout) && !LosesComments(m.declarations, layout)
    ensures FmtModule(m, ReadBack(false, m.declarations, layout)) == FmtModule(m, layout)
  {
    var ds := m.declarations;
    var back := ReadBack(false, ds, layout);
    hide ReadBack, LosesComments, SameDecl, LayoutKept;
    forall i | 0 <= i < |ds| ensures SameDecl(ds[i], DeclAt(back, i), DeclAt(layout, i)) { DeclBack(ds, layout, i); }
    DeclsSame(End, ds, 0, back, layout);
  }

  /** A keen reader tells the two texts apart. */
  lemma LostIsSeen(ds: seq<Decl>, layout: Layout, i: nat, j: nat)
    requires IsLost(ds, layout, i, j) && LayoutKept(layout)
    ensures ReadBack(true, ds, layout) != ReadBack(true, ds, ReadBack(false, ds, layout))
  {
    var back := ReadBack(false, ds, layout);
    BackAt(true, ds, layout, i, j);
    BackAt(true, ds, back, i, j);
    BackAt(false, ds, layout, i, j);
    DeclKeptAt(layout, i);
    KeptAt(DeclAt(layout, i).chains, j);
    IndentSpaces();
    RemarksAgain(INDENT, ChainAt(DeclAt(layout, i).chains, j).leading);
    hide ReadBack, DeclsLevel, IsLongStruct, ChainAt, DeclAt, ChainsOf;
    assert Again(false, INDENT, []) == [];
  }

  lemma LostCommentsPrintDifferently(m: Module, layout: Layout)
    requires WfModule(m) && LayoutKept(layout) && LosesComments(m.declarations, layout)
    ensures Render(FmtModule(m, ReadBack(false, m.declarations, layout))) != Render(FmtModule(m, layout))
  {
    var ds := m.declarations;
    var back := ReadBack(false, ds, layout);
    var i: nat, j: nat :| IsLost(ds, layout, i, j);
    BackIsKept(ds, layout);
    hide ReadBack, DeclsLevel, ChainsOf, WfModule, Render, FmtModule, ReadLines, LayoutKept;
    LostIsSeen(ds, layout, i, j);
    PrintedLayout(true, m, layout);
    PrintedLayout(true, m, back);
  }

  // ---- Levels depend on the texts of annotations ----

  lemma {:induction false} TypeLevelIs(l: Level, ty: TypeText)
    requires TypeTokensOnly(ty)
    ensures TypeLevel(l, ty) == Depths(l, false, false, TypeString(ty))
    decreases ty
  {
    if ty != [] {
      TokenDepths(l, ty[0], TypeString(ty[1..]));
      TypeLevelIs(TokenLevel(l, ty[0]), ty[1..]);
    }
  }

  lemma TypeLevelLike(l: Level, ty: TypeText, uy: TypeText)
    requires WfType(ty) && WfType(uy) && TypeString(ty) == TypeString(uy)
    ensures TypeLevel(l, ty) == TypeLevel(l, uy)
  {
    TypeIsPlain(true, 0, ty);
    TypeIsPlain(true, 0, uy);
    TypeLevelIs(l, ty);
    TypeLevelIs(l, uy);
  }

  lemma {:induction false} PortsLevelLike(l: Level, ps: seq<Port>, qs: seq<Port>)
    requires WfPorts(ps) && WfPorts(qs) && PortsLike(ps, qs)
    ensures PortsLevel(l, ps) == PortsLevel(l, qs)
    decreases ps
  {
    hide TypeString, TypeLevel, WfPort;
    if ps != [] {
      assert WfPort(ps[0]) && WfPort(qs[0]);
      assert WfType(ps[0].ty) && WfType(qs[0].ty) by { PortType(ps[0]); PortType(qs[0]); }
      TypeLevelLike(l, ps[0].ty, qs[0].ty);
      PortsLevelLike(TypeLevel(l, ps[0].ty), ps[1..], qs[1..]);
    }
  }

  lemma PortType(p: Port)
    requires WfPort(p)
    ensures WfType(p.ty)
  {}

  lemma {:induction false} ParamsLevelLike(l: Level, ps: seq<NodeParam>, qs: seq<NodeParam>)
    requires (forall i :: 0 <= i < |ps| ==> WfParam(ps[i])) && (forall i :: 0 <= i < |qs| ==> WfParam(qs[i])) && ParamsLike(ps, qs)
    ensures ParamsLevel(l, ps) == ParamsLevel(l, qs)
    decreases ps
  {
    if ps != [] {
      assert WfParam(ps[0]) && WfParam(qs[0]) && ParamLike(ps[0], qs[0]);
      TypeLevelLike(l, ps[0].input, qs[0].input);
      var l1 := TypeLevel(l, ps[0].input);
      TypeLevelLike(l1, ps[0].output, qs[0].output);
      ParamsLevelLike(TypeLevel(l1, ps[0].output), ps[1..], qs[1..]);
    }
  }

  lemma {:induction false} NodesLevelLike(l: Level, ns: seq<ForeignNode>, os: seq<ForeignNode>)
    requires (forall i :: 0 <= i < |ns| ==> WfForeignNode(ns[i])) && (forall i :: 0 <= i < |os| ==> WfForeignNode(os[i]))
    requires |ns| == |os| && forall i :: 0 <= i < |ns| ==> ForeignNodeLike(ns[i], os[i])
    ensures NodesLevel(l, ns) == NodesLevel(l, os)
    decreases ns
  {
    if ns != [] {
      assert WfForeignNode(ns[0]) && WfForeignNode(os[0]) && ForeignNodeLike(ns[0], os[0]);
      hide PortsLike, WfPorts, PortsLevel;
      PortsLevelLike(l, ns[0].inputs, os[0].inputs);
      var l1 := PortsLevel(l, ns[0].inputs);
      PortsLevelLike(l1, ns[0].outputs, os[0].outputs);
      NodesLevelLike(PortsLevel(l1, ns[0].outputs), ns[1..], os[1..]);
    }
  }

  lemma DeclLevelLike(l: Level, d: Decl, e: Decl)
    requires WfDecl(d) && WfDecl(e) && DeclLike(d, e)
    ensures DeclLevel(l, d) == DeclLevel(l, e) && ChainsOf(d) == ChainsOf(e)
  {
    hide PortsLike, WfPorts, PortsLevel, ParamsLevel, ParamsLike, WfParam, WfForeignNode, ForeignNodeLike, NodesLevel,
         TypeLevel;
    match (d, e)
    case (TypeAlias(_, ty), TypeAlias(_, uy)) => TypeLevelLike(l, ty, uy);
    case (StructDecl(_, ps), StructDecl(_, qs)) => PortsLevelLike(l, ps, qs);
    case (Import(_, _), Import(_, _)) =>
    case (Foreign(_, _, ns), Foreign(_, _, os)) => NodesLevelLike(l, ns, os);
    case (Node(c), Node(b)) => HeaderLevelLike(l, c, b);
    case (Program(c), Program(b)) => HeaderLevelLike(l, c, b);
  }

  lemma HeaderLevelLike(l: Level, c: Callable, d: Callable)
    requires WfCallable(c) && WfCallable(d) && CallableLike(c, d)
    ensures HeaderLevel(l, c) == HeaderLevel(l, d)
  {
    hide PortsLike, WfPorts, PortsLevel, ParamsLevel, ParamsLike, WfParam, WfChain;
    ParamsLevelLike(l, c.nodeParams, d.nodeParams);
    var l1 := ParamsLevel(l, c.nodeParams);
    PortsLevelLike(l1, c.inputs, d.inputs);
    PortsLevelLike(PortsLevel(l1, c.inputs), c.outputs, d.outputs);
  }

  lemma {:induction false} DeclsLevelLike(l: Level, m: Module, n: Module, i: nat)
    requires WfModule(m) && WfModule(n) && ModuleLike(m, n) && i <= |m.declarations|
    ensures DeclsLevel(l, m.declarations, i) == DeclsLevel(l, n.declarations, i)
  {
    hide WfDecl, DeclLike, DeclLevel;
    if i > 0 {
      DeclsLevelLike(l, m, n, i - 1);
      DeclLevelLike(DeclsLevel(l, m.declarations, i - 1), m.declarations[i - 1], n.declarations[i - 1]);
    }
  }

  lemma LosesAlike(m: Module, n: Module, layout: Layout)
    requires WfModule(m) && WfModule(n) && ModuleLike(m, n)
    ensures LosesComments(m.declarations, layout) <==> LosesComments(n.declarations, layout)
  {
    hide WfDecl, DeclLike, DeclsLevel, ChainsOf;
    forall i: nat, j: nat ensures IsLost(m.declarations, layout, i, j) <==> IsLost(n.declarations, layout, i, j) {
      if i < |m.declarations| {
        DeclLevelLike(BOTTOM, m.declarations[i], n.declarations[i]);
        DeclsLevelLike(BOTTOM, m, n, i + 1);
      }
    }
  }

  // ---- Main results ----

  /** The comments and blank lines of a printed module are printed again exactly when none of them is lost. */
  lemma CommentsStayIff(m: Module, layout: Layout)
    requires WfModule(m) && LayoutKept(layout)
    ensures
      var text := Render(FmtModule(m, layout));
      Render(FmtModule(m, ReadLayout(text, m.declarations))) == text <==> !LosesComments(m.declarations, layout)
  {
    PrintedLayout(false, m, layout);
    hide ReadBack, FmtModule, Render, WfModule, LosesComments, ReadLines, LayoutKept;
    if LosesComments(m.declarations, layout) {
      LostCommentsPrintDifferently(m, layout);
    } else {
      KeptCommentsPrintSame(m, layout);
    }
  }

  /** What is collected from a text is whole; if it is skipped where it is written, it can be read back. */
  lemma CollectedCanBeRead(source: string, ds: seq<Decl>)
    requires LayoutSkips(ReadLayout(source, ds))
    ensures LayoutKept(ReadLayout(source, ds))
  {
    CollectedIsKept(source, ds);
    hide ReadLayout, AreComments, RemarksSkip, IsChainKept;
  }

  /**
   * Formatting formatted text changes nothing exactly when no comment or blank line is kept for a chain behind
   * annotations whose parentheses or brackets do not match, and no comment behind a long struct literal.
   */
  lemma FormattingIsIdempotentIff(source: string)
    requires Parse(source).Some? && ModuleReadable(Parse(source).value)
    requires LayoutSkips(ReadLayout(source, Parse(source).value.declarations))
    ensures FormatText(source).Some?
    ensures
      var ds := Parse(source).value.declarations;
      FormatText(FormatText(source).value) == FormatText(source) <==> !LosesComments(ds, ReadLayout(source, ds))
  {
    ParsedIsWellFormed(source);
    var m := Parse(source).value;
    hide FmtModule, Render, WfModule, ModuleLike, ModuleReadable, ModuleAgain, ModuleApart, ReadLayout, LosesComments,
         Parse, LayoutSkips,
         LayoutKept;
    var layout := ReadLayout(source, m.declarations);
    var once := Render(FmtModule(m, layout));
    var n := ModuleAgain(m);
    CollectedCanBeRead(source, m.declarations);
    ReadableModuleParses(m, layout);
    ModuleAgainIs(m);
    LikeModulesPrintAlike(n, m, layout);
    CommentsStayIff(n, layout);
    LosesAlike(n, m, layout);
    assert FormatText(once) == Some(Render(FmtModule(n, ReadLayout(once, n.declarations))));
  }
}
