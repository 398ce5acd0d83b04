/** What formatting does to a program with comments: which sources are formatted to the program they are. */
module FormatProgram {
  import opened Tokens
  import opened Ast
  import opened Parsing
  import opened WellFormed
  import opened Rendering
  import opened Comments
  import opened Formatting
  import opened FormatTokens
  import opened FormatSafety
  import opened FormatSource
  import FormatLimits
  import ParserWeights
  import Merging
  import Lexer
  import opened Annotations
  import opened CommentLayout
  import opened CommentTokens
  import opened SkippedComments
  import opened Idempotence

  // ---- Comments that are not skipped but end where they are written ----

  predicate RemarksClose(indent: string, cs: seq<string>) { Closes(CommentLines(indent, cs)) }

  predicate ChainCloses(c: ChainComments) { RemarksClose(INDENT, c.leading) && IsTrailing(c.trailing) }

  predicate ChainsClose(cs: seq<ChainComments>) { forall i :: 0 <= i < |cs| ==> ChainCloses(cs[i]) }

  predicate LayoutCloses(layout: Layout)
  {
    forall i :: 0 <= i < |layout| ==> RemarksClose("", layout[i].leading) && ChainsClose(layout[i].chains)
  }

  /** Text of whole lines, as far as its comments end. */
  predicate LooseLines(t: Text) { Loose(t) && Ends(t) }

  lemma {:induction false} LaidIsLoose(t: Text)
    requires Laid(true, t)
    ensures Loose(t) && AllSkip(t)
  {
    match t
    case End =>
    case T(token, rest) => LaidIsLoose(rest);
    case W(gap, rest) => LaidIsLoose(rest);
  }

  lemma WholeIsLoose(t: Text)
    requires Whole(true, t)
    ensures LooseLines(t) && AllSkip(t)
  {
    LaidIsLoose(t);
  }

  lemma {:induction false} SkipAppend(t: Text, u: Text)
    ensures AllSkip(Append(t, u)) <==> AllSkip(t) && AllSkip(u)
  {
    match t
    case End =>
    case T(token, rest) => SkipAppend(rest, u);
    case W(gap, rest) => SkipAppend(rest, u);
  }

  lemma {:induction false} LooseAppend(t: Text, u: Text)
    requires LooseLines(t) && LooseLines(u)
    ensures LooseLines(Append(t, u)) && (AllSkip(Append(t, u)) <==> AllSkip(t) && AllSkip(u))
  {
    AppendEnds(t, u);
    SkipAppend(t, u);
    match t
    case End =>
    case T(token, rest) =>
      LooseAppend(rest, u);
      LeadsAppend(token, rest, u);
    case W(gap, rest) => LooseAppend(rest, u);
  }

  /** Adding lines that are skipped. */
  lemma WholeAppend(t: Text, u: Text)
    requires LooseLines(t) && Whole(true, u)
    ensures LooseLines(Append(t, u)) && (AllSkip(Append(t, u)) <==> AllSkip(t))
  {
    WholeIsLoose(u);
    LooseAppend(t, u);
  }

  lemma BlankLineLoose(t: Text)
    requires LooseLines(t)
    ensures LooseLines(BlankLine(t)) && (AllSkip(BlankLine(t)) <==> AllSkip(t))
  {
    NewLineWhole(true);
    WholeAppend(t, NewLine(End));
  }

  lemma RemarksLoose(t: Text, indent: string, cs: seq<string>)
    requires LooseLines(t) && RemarksClose(indent, cs)
    ensures
      var u := Append(t, Remarks(indent, cs));
      LooseLines(u) && (AllSkip(u) <==> AllSkip(t) && RemarksSkip(indent, cs))
  {
    LooseAppend(t, Remarks(indent, cs));
  }

  lemma FlushLoose(acc: Text, group: seq<Row>)
    requires LooseLines(acc) && WfRows(group)
    ensures LooseLines(Flush(acc, group)) && (AllSkip(Flush(acc, group)) <==> AllSkip(acc))
  {
    GroupWhole(true, group, group);
    WholeAppend(acc, FmtGroup(group, group, End));
  }

  lemma BreakLoose(acc: Text, group: seq<Row>, i: nat, c: ChainComments)
    requires LooseLines(acc) && WfRows(group) && ChainCloses(c)
    ensures LooseLines(Break(acc, group, i, c)) && (AllSkip(Break(acc, group, i, c)) <==> AllSkip(acc) && ChainSkips(c))
  {
    hide Flush, BlankLine, LooseLines, Remarks, WfRows, RemarksSkip, RemarksClose;
    FlushLoose(acc, group);
    var flushed := Flush(acc, group);
    BlankLineLoose(flushed);
    RemarksLoose(if c.blank && i > 0 then BlankLine(flushed) else flushed, INDENT, c.leading);
  }

  lemma NothingLoose()
    ensures ChainCloses(BARE) && RemarksClose("", []) && RemarksClose(INDENT, [])
  {
    assert Closes("");
  }

  /** A chain with nothing before it. */
  lemma NoBreak(c: ChainComments)
    requires ChainCloses(c) && !Breaks(c)
    ensures ChainSkips(c)
  {
    BareSkips();
  }

  lemma ChainClosesAt(comments: seq<ChainComments>, i: nat)
    requires ChainsClose(comments)
    ensures ChainCloses(ChainAt(comments, i))
  {
    NothingLoose();
    hide RemarksClose;
  }

  lemma {:induction false} BodyLoose(acc: Text, group: seq<Row>, chains: seq<Chain>, i: nat, comments: seq<ChainComments>)
    requires LooseLines(acc) && i <= |chains| && WfRows(group) && ChainsClose(comments)
    requires forall j :: 0 <= j < |chains| ==> WfChain(chains[j])
    ensures
      var t := FmtBody(acc, group, chains, i, comments);
      LooseLines(t) && (AllSkip(t) ==> AllSkip(acc) && forall j :: i <= j < |chains| ==> ChainSkips(ChainAt(comments, j)))
    decreases |chains| - i
  {
    hide WfChain, IsMultiline, Break, FmtMultilineChain, Flush, LooseLines, WfRows, ChainsClose, ChainSkips,
         ChainCloses, ChainAt, AllSkip;
    FlushLoose(acc, group);
    if i < |chains| {
      var c := ChainAt(comments, i);
      ChainClosesAt(comments, i);
      RowFacts(chains[i], group, c);
      if Breaks(c) { BreakLoose(acc, group, i, c); } else { NoBreak(c); }
      var acc1 := if Breaks(c) then Break(acc, group, i, c) else acc;
      var group1 := if Breaks(c) then [] else group;
      if IsMultiline(chains[i]) {
        var lines := FmtMultilineChain(chains[i], c.trailing, End);
        FlushLoose(acc1, group1);
        MultilineChainWhole(true, chains[i], c.trailing);
        WholeAppend(Flush(acc1, group1), lines);
        BodyLoose(Append(Flush(acc1, group1), lines), [], chains, i + 1, comments);
      } else {
        assert [] + [Row(chains[i], c.trailing)] == [Row(chains[i], c.trailing)];
        BodyLoose(acc1, group1 + [Row(chains[i], c.trailing)], chains, i + 1, comments);
      }
    }
  }

  lemma RowFacts(chain: Chain, group: seq<Row>, c: ChainComments)
    requires WfChain(chain) && WfRows(group) && ChainCloses(c)
    ensures IsTrailing(c.trailing) && WfRows([]) && WfRows([Row(chain, c.trailing)])
            && WfRows(group + [Row(chain, c.trailing)])
  {
    hide WfChain, RemarksClose, IsTrailing;
  }

  /** The comments of a declaration's chains are skipped. */
  ghost predicate BodySkips(d: Decl, comments: seq<ChainComments>)
  {
    forall j :: 0 <= j < |ChainsOf(d)| ==> ChainSkips(ChainAt(comments, j))
  }

  lemma CallableLoose(acc: Text, kind: Text, c: Callable, comments: seq<ChainComments>)
    requires LooseLines(acc) && WfCallable(c) && CallableApart(c) && IsKind(kind) && ChainsClose(comments)
    ensures
      var t := FmtCallable(acc, kind, c, comments);
      LooseLines(t) && (AllSkip(t) ==> AllSkip(acc) && forall j :: 0 <= j < |c.chains| ==> ChainSkips(ChainAt(comments, j)))
  {
    HeaderWhole(true, kind, c);
    hide FmtHeader, FmtBody, CallableApart, WfChain, ChainsClose, ChainSkips, LooseLines, AllSkip;
    var header := FmtHeader(kind, c, End);
    WholeAppend(acc, header);
    BodyLoose(Append(acc, header), [], c.chains, 0, comments);
    BraceWhole(true);
    WholeAppend(FmtBody(Append(acc, header), [], c.chains, 0, comments), T(RBrace, NewLine(End)));
  }

  lemma DeclLoose(acc: Text, d: Decl, comments: seq<ChainComments>)
    requires LooseLines(acc) && WfDecl(d) && DeclApart(d) && ChainsClose(comments)
    ensures var t := FmtDecl(acc, d, comments); LooseLines(t) && (AllSkip(t) ==> AllSkip(acc) && BodySkips(d, comments))
  {
    hide FmtAlias, FmtStruct, FmtImport, FmtForeign, FmtCallable, WfCallable, CallableApart, LooseLines, ChainsClose,
         ChainSkips, Whole,
         AllSkip;
    match d
    case TypeAlias(n, ty) =>
      AliasWhole(true, n, ty);
      WholeAppend(acc, FmtAlias(n, ty, End));
    case StructDecl(n, fields) =>
      StructWhole(true, n, fields);
      WholeAppend(acc, FmtStruct(n, fields, End));
    case Import(source, clause) =>
      ImportWhole(true, source, clause);
      WholeAppend(acc, FmtImport(source, clause, End));
    case Foreign(language, origin, nodes) =>
      ForeignWhole(true, language, origin, nodes);
      WholeAppend(acc, FmtForeign(language, origin, nodes, End));
    case Node(c) => CallableLoose(acc, if c.isExtern then EXTERN_NODE else NODE, c, comments);
    case Program(c) => CallableLoose(acc, PROGRAM, c, comments);
  }

  lemma BetweenLoose(acc: Text, ds: seq<Decl>, i: nat, leading: seq<string>)
    requires LooseLines(acc) && i < |ds| && RemarksClose("", leading)
    ensures
      var t := Between(acc, ds, i, leading);
      && LooseLines(t)
      && (AllSkip(t) ==> AllSkip(acc) && RemarksSkip("", leading))
  {
    hide BlankLine, NeedsBlankBetween, LooseLines, Remarks, RemarksSkip, RemarksClose;
    BlankLineLoose(acc);
    RemarksLoose(if i > 0 && NeedsBlankBetween(ds[i - 1], ds[i]) then BlankLine(acc) else acc, "", leading);
  }

  ghost predicate DeclSkips(ds: seq<Decl>, layout: Layout, i: nat)
    requires i < |ds|
  {
    RemarksSkip("", DeclAt(layout, i).leading) && BodySkips(ds[i], DeclAt(layout, i).chains)
  }

  lemma DeclClosesAt(layout: Layout, i: nat)
    requires LayoutCloses(layout)
    ensures RemarksClose("", DeclAt(layout, i).leading) && ChainsClose(DeclAt(layout, i).chains)
  {
    NothingLoose();
    hide RemarksClose;
  }

  lemma {:induction false} DeclsLoose(acc: Text, ds: seq<Decl>, i: nat, layout: Layout)
    requires LooseLines(acc) && i <= |ds| && LayoutCloses(layout)
    requires forall j :: 0 <= j < |ds| ==> WfDecl(ds[j]) && DeclApart(ds[j])
    ensures
      var t := FmtDecls(acc, ds, i, layout);
      LooseLines(t) && (AllSkip(t) ==> AllSkip(acc) && forall j :: i <= j < |ds| ==> DeclSkips(ds, layout, j))
    decreases |ds| - i
  {
    hide FmtDecl, WfDecl, DeclApart, Between, LooseLines, LayoutCloses, DeclAt, RemarksSkip, RemarksClose, ChainsClose,
         BodySkips, AllSkip;
    if i < |ds| {
      var c := DeclAt(layout, i);
      var acc1 := Between(acc, ds, i, c.leading);
      DeclClosesAt(layout, i);
      BetweenLoose(acc, ds, i, c.leading);
      DeclLoose(acc1, ds[i], c.chains);
      DeclsLoose(FmtDecl(acc1, ds[i], c.chains), ds, i + 1, layout);
    }
  }

  lemma ModuleLoose(m: Module, layout: Layout)
    requires WfModule(m) && ModuleApart(m) && LayoutCloses(layout)
    ensures
      var t := FmtModule(m, layout);
      Loose(t) && (AllSkip(t) ==> forall j :: 0 <= j < |m.declarations| ==> DeclSkips(m.declarations, layout, j))
  {
    hide WfDecl, DeclApart, LayoutCloses, DeclSkips, AllSkip, FmtDecls;
    assert LooseLines(End);
    DeclsLoose(End, m.declarations, 0, layout);
    NewLineWhole(true);
    WholeAppend(FmtDecls(End, m.declarations, 0, layout), NewLine(End));
  }

  // ---- The shape of what is collected ----

  /** One entry for each declaration and each chain. */
  predicate HasShape(layout: Layout, ds: seq<Decl>)
  {
    |layout| == |ds| && forall i :: 0 <= i < |ds| ==> |layout[i].chains| == |ChainsOf(ds[i])|
  }

  lemma StepShape(r: Reader, line: string, ds: seq<Decl>)
    requires HasShape(r.layout, ds)
    ensures HasShape(Step(false, r, line).layout, ds)
  {
    hide StartsDeclaration, StartsCallable, StartsWith, TrimStart, TrimEnd, HasBlockEnd, Depths, HashAt, ChainsOf;
  }

  lemma {:induction false} LinesShape(r: Reader, s: string, ds: seq<Decl>)
    requires HasShape(r.layout, ds)
    ensures HasShape(ReadLines(false, r, s).layout, ds)
    decreases |s|
  {
    hide HasShape, Step;
    if s != [] {
      StepShape(r, s[..LineLength(s)], ds);
      LinesShape(Step(false, r, s[..LineLength(s)]), AfterLine(s), ds);
    }
  }

  lemma CollectedShape(source: string, ds: seq<Decl>)
    ensures HasShape(ReadLayout(source, ds), ds)
  {
    hide ReadLines, ChainsOf;
    LinesShape(Start(ds), source, ds);
  }

  lemma AllCommentsSkip(layout: Layout, ds: seq<Decl>)
    requires HasShape(layout, ds) && forall j :: 0 <= j < |ds| ==> DeclSkips(ds, layout, j)
    ensures LayoutSkips(layout)
  {
    hide RemarksSkip, ChainSkips, ChainsOf;
    forall i | 0 <= i < |layout| ensures RemarksSkip("", layout[i].leading) && ChainsSkip(layout[i].chains) {
      assert DeclSkips(ds, layout, i);
      assert forall j :: 0 <= j < |layout[i].chains| ==> ChainAt(layout[i].chains, j) == layout[i].chains[j];
    }
  }

  // ---- Main results ----

  /** The comments that are kept of a source that parses. */
  function KeptOf(source: string): Layout
    requires Parse(source).Some?
  {
    ReadLayout(source, Parse(source).value.declarations)
  }

  /** Comments that leave tokens change the program. */
  lemma UnskippedIsLost(m: Module, layout: Layout)
    requires WfModule(m) && ModuleApart(m) && LayoutCloses(layout) && HasShape(layout, m.declarations)
             && !LayoutSkips(layout)
    ensures Parse(Render(FmtModule(m, layout))) != Some(m)
  {
    var t := FmtModule(m, layout);
    ModuleLoose(m, layout);
    LooseLexed(t);
    if AllSkip(t) { AllCommentsSkip(layout, m.declarations); }
    ModuleTokens(m, layout);
    var r := Lexer.Lex(Render(t));
    hide FmtModule, Loose, AllSkip, WfModule, LayoutCloses, LayoutSkips, Lexer.Lex;
    if r.SomeTokens? && ParseModule(ListOf(r.tokens)) == Some(m) {
      ParserWeights.ModuleTakes(ListOf(r.tokens), LastCommas(m.declarations));
    }
  }

  /**
   * Formatting keeps the program of a source exactly when no annotation has tokens that are lexed as one once the
   * blanks between them are gone, and every comment that is kept is skipped where it is written. The comments are
   * skipped, or no tokens merge and they end where they are written.
   */
  lemma FormattingPreservesProgramIff(source: string)
    requires Parse(source).Some?
    requires LayoutSkips(KeptOf(source)) || (ModuleApart(Parse(source).value) && LayoutCloses(KeptOf(source)))
    ensures FormatText(source).Some?
    ensures
      Parse(FormatText(source).value) == Parse(source)
      <==> ModuleApart(Parse(source).value) && LayoutSkips(KeptOf(source))
  {
    var m, layout := Parse(source).value, KeptOf(source);
    ParsedIsWellFormed(source);
    CollectedShape(source, m.declarations);
    hide FmtModule, Render, WfModule, ModuleApart, ReadLayout, Parse, LayoutSkips, LayoutCloses, HasShape;
    if LayoutSkips(layout) { FormatLimits.PrintedModuleParsesIff(m, layout); } else { UnskippedIsLost(m, layout); }
  }

  /** Formatting keeps what the program keeps of a source exactly when each annotation, printed alone, is read back. */
  lemma FormattingPreservesTextsIff(source: string)
    requires Parse(source).Some? && LayoutSkips(KeptOf(source))
    ensures FormatText(source).Some?
    ensures
      var again := Parse(FormatText(source).value);
      (again.Some? && ModuleLike(again.value, Parse(source).value)) <==> ModuleReadable(Parse(source).value)
  {
    var m, layout := Parse(source).value, KeptOf(source);
    ParsedIsWellFormed(source);
    hide FmtModule, Render, WfModule, ModuleLike, ModuleReadable, ReadLayout, Parse, LayoutSkips;
    PrintedTextsParseIff(m, layout);
  }

  /** A source whose block comments stand alone on their lines is kept exactly when no tokens merge. */
  lemma StandAloneProgramIsKeptIff(source: string)
    requires Parse(source).Some? && BlocksStandAlone(false, source)
    ensures FormatText(source).Some?
            && (Parse(FormatText(source).value) == Parse(source) <==> ModuleApart(Parse(source).value))
  {
    StandAloneBlocksAreSkipped(source, Parse(source).value.declarations);
    hide Parse, FormatText, ModuleApart, LayoutSkips, LayoutCloses, BlocksStandAlone;
    FormattingPreservesProgramIff(source);
  }
}
