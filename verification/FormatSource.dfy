/** format_source as a whole: formatted text lexes and parses to the module it was made from. */
module FormatSource {
  import opened Tokens
  import opened Ast
  import Lexer
  import opened Parsing
  import opened WellFormed
  import RoundTrip
  import opened ParserResults
  import opened Rendering
  import opened Comments
  import opened Formatting
  import opened FormatTokens
  import opened FormatSafety
  import opened FormatAppend

  // ---- Texts that are made of whole lines ----

  /** Text that ends in a blank, so that any text may follow. */
  predicate Ends(t: Text)
  {
    match t
    case End => true
    case T(_, rest) => rest != End && Ends(rest)
    case W(_, rest) => Ends(rest)
  }

  lemma {:induction false} AppendEnds(t: Text, u: Text)
    requires Ends(u) && (u != End || Ends(t))
    ensures Ends(Append(t, u)) && (u != End ==> Append(t, u) != End)
  {
    match t
    case End =>
    case T(token, rest) => AppendEnds(rest, u);
    case W(blank, rest) => AppendEnds(rest, u);
  }

  lemma {:induction false} AppendSafe(strict: bool, t: Text, u: Text)
    requires Laid(strict, t) && Ends(t) && Laid(strict, u)
    ensures Laid(strict, Append(t, u))
  {
    match t
    case End =>
    case T(token, rest) =>
      AppendSafe(strict, rest, u);
      LeadsAppend(token, rest, u);
    case W(blank, rest) => AppendSafe(strict, rest, u);
  }

  lemma LeadsAppend(token: Token, rest: Text, u: Text)
    requires rest != End && Ends(rest)
    ensures Leads(token, Append(rest, u)) <==> Leads(token, rest)
    ensures Runs(token, Append(rest, u)) <==> Runs(token, rest)
  {
    if rest.T? { assert Append(rest, u) == T(rest.token, Append(rest.rest, u)); }
  }

  predicate Whole(strict: bool, t: Text) { Laid(strict, t) && Ends(t) }

  lemma AppendWhole(strict: bool, t: Text, u: Text)
    requires Whole(strict, t) && Whole(strict, u)
    ensures Whole(strict, Append(t, u))
  {
    AppendSafe(strict, t, u);
    AppendEnds(t, u);
  }

  /** Lets the verifier follow a text to its end as far as it is spelled out. */
  lemma UnfoldEnds()
    ensures forall token, rest :: Ends(T(token, rest)) <==> rest != End && Ends(rest)
    ensures forall blank, rest :: Ends(W(blank, rest)) <==> Ends(rest)
    ensures Ends(End)
    ensures forall u :: Append(End, u) == u
  {
  }

  lemma TypeEnds(ty: TypeText, k: Text)
    requires k != End && Ends(k)
    ensures FmtType(ty, k) != End && Ends(FmtType(ty, k))
  {
    UnfoldEnds();
    TypeAppend(ty, End, k);
    AppendEnds(FmtType(ty, End), k);
  }

  lemma AliasWhole(strict: bool, n: string, ty: TypeText)
    requires IsIdent(n) && WfType(ty) && (strict ==> Apart(ty))
    ensures Whole(strict, FmtAlias(n, ty, End))
  {
    assert IsIdent("type");
    hide FmtType, WfType, Apart, IsIdent;
    UnfoldEnds();
    TypeEnds(ty, NewLine(End));
    FormatSafety.Unfold(strict);
    hide Laid, Runs, IsGap;
    TypeSafe(strict, ty, NewLine(End));
    WordSafe(strict, "type", T(Ident(n), W(" ", T(Equal, W(" ", FmtType(ty, NewLine(End)))))));
  }

  lemma StructWhole(strict: bool, n: string, fields: seq<Port>)
    requires IsIdent(n) && WfPorts(fields) && (strict ==> PortsApart(fields))
    ensures Whole(strict, FmtStruct(n, fields, End))
  {
    StructEnds(n, fields);
    StructLaid(strict, n, fields);
  }

  lemma StructEnds(n: string, fields: seq<Port>)
    ensures Ends(FmtStruct(n, fields, End))
  {
    hide FmtStructLines;
    var last := T(RBrace, NewLine(End));
    UnfoldEnds();
    StructLinesAppend(fields, End, last);
    AppendEnds(FmtStructLines(fields, End), last);
  }

  lemma BraceLaid(strict: bool, brace: Token, k: Text)
    requires brace == LBrace || brace == RBrace
    requires k == End || Laid(strict, k)
    ensures Laid(strict, T(brace, NewLine(k)))
  {
    FormatSafety.Unfold(strict);
    hide Laid, Runs, IsGap;
  }

  lemma StructLaid(strict: bool, n: string, fields: seq<Port>)
    requires IsIdent(n) && WfPorts(fields) && (strict ==> PortsApart(fields))
    ensures Laid(strict, FmtStruct(n, fields, End))
  {
    assert IsIdent("struct");
    hide FmtStructLines, WfPorts, PortsApart, IsIdent, Laid;
    var last := T(RBrace, NewLine(End));
    BraceLaid(strict, RBrace, End);
    StructLinesSafe(strict, fields, last);
    var lines := T(LBrace, NewLine(FmtStructLines(fields, last)));
    BraceLaid(strict, LBrace, FmtStructLines(fields, last));
    WordSafe(strict, n, lines);
    WordSafe(strict, "struct", T(Ident(n), W(" ", lines)));
  }

  lemma ImportWhole(strict: bool, source: ImportSource, clause: ImportClause)
    requires WfDecl(Import(source, clause))
    ensures Whole(strict, FmtImport(source, clause, End))
  {
    hide FmtImportHead, FitsLine, WfDecl, FmtInlineImport, FmtImportLines;
    ImportSafe(strict, source, clause);
    UnfoldEnds();
    match clause
    case As(alias) =>
      var last := T(Ident("as"), W(" ", T(Ident(alias), NewLine(End))));
      ImportHeadAppend(source, End, last);
      AppendEnds(FmtImportHead(source, End), last);
    case Items(items) =>
      if FitsLine(source, items) {
        InlineImportAppend(source, items, End, NewLine(End));
        AppendEnds(FmtInlineImport(source, items, End), NewLine(End));
      } else {
        var last := T(RBrace, NewLine(End));
        ImportLinesAppend(items, End, last);
        AppendEnds(FmtImportLines(items, End), last);
        var lines := T(LBrace, NewLine(FmtImportLines(items, last)));
        ImportHeadAppend(source, End, lines);
        AppendEnds(FmtImportHead(source, End), lines);
      }
  }

  lemma ForeignWhole(strict: bool, language: ForeignTarget, origin: ForeignSource, nodes: seq<ForeignNode>)
    requires WfDecl(Foreign(language, origin, nodes)) && (strict ==> DeclApart(Foreign(language, origin, nodes)))
    ensures Whole(strict, FmtForeign(language, origin, nodes, End))
  {
    ForeignSafe(strict, language, origin, nodes);
    hide FmtForeignHead, FmtForeignLines, WfDecl, DeclApart;
    var last := T(RBrace, NewLine(End));
    UnfoldEnds();
    ForeignLinesAppend(nodes, End, last);
    AppendEnds(FmtForeignLines(nodes, End), last);
    var body := W(" ", T(LBrace, NewLine(FmtForeignLines(nodes, last))));
    ForeignHeadAppend(language, origin, End, body);
    AppendEnds(FmtForeignHead(language, origin, End), body);
  }

  // ---- Comments that are skipped ----

  /** Comments on lines of their own that the lexer drops whole where they are written. */
  predicate RemarksSkip(indent: string, cs: seq<string>) { Skips(CommentLines(indent, cs)) }

  predicate ChainSkips(c: ChainComments) { RemarksSkip(INDENT, c.leading) && IsTrailing(c.trailing) }

  predicate ChainsSkip(cs: seq<ChainComments>) { forall i :: 0 <= i < |cs| ==> ChainSkips(cs[i]) }

  /** All comments that are kept are dropped by the lexer. */
  predicate LayoutSkips(layout: Layout)
  {
    forall i :: 0 <= i < |layout| ==> RemarksSkip("", layout[i].leading) && ChainsSkip(layout[i].chains)
  }

  lemma BareSkips()
    ensures ChainSkips(BARE) && RemarksSkip("", [])
  {
    assert Skips([]);
  }

  lemma RemarksWhole(strict: bool, indent: string, cs: seq<string>)
    requires RemarksSkip(indent, cs)
    ensures Whole(strict, Remarks(indent, cs))
  {
    FormatSafety.Unfold(strict);
    UnfoldEnds();
  }

  // ---- Chains ----

  lemma {:induction false} GroupWhole(strict: bool, rows: seq<Row>, group: seq<Row>)
    requires WfRows(rows)
    ensures Whole(strict, FmtGroup(rows, group, End))
  {
    hide FmtAligned, WfChain;
    GroupSafe(strict, rows, group, End);
    if rows != [] {
      GroupWhole(strict, rows[1..], group);
      var more := LineEnd(rows[0].trailing, FmtGroup(rows[1..], group, End));
      UnfoldEnds();
      AlignedAppend(rows[0].chain, 0, group, End, more);
      AppendEnds(FmtAligned(rows[0].chain, 0, group, End), more);
    }
  }

  lemma StageLineEnds(s: Stage, k: Text)
    requires Ends(k)
    ensures Ends(FmtStageLine(s, k))
  {
    hide FmtStage, FmtArmLines;
    UnfoldEnds();
    match s
    case Match(arms) =>
      var last := W(INDENT, T(RBrace, NewLine(k)));
      ArmLinesAppend(arms, End, last);
      AppendEnds(FmtArmLines(arms, End), last);
    case _ =>
      StageAppend(s, End, NewLine(k));
      AppendEnds(FmtStage(s, End), NewLine(k));
  }

  lemma {:induction false} StageLinesEnd(stages: seq<Stage>)
    ensures Ends(FmtStageLines(stages, End))
  {
    hide FmtStageLine;
    if stages != [] {
      StageLinesEnd(stages[1..]);
      StageLineEnds(stages[0], FmtStageLines(stages[1..], End));
    }
  }

  lemma MultilineChainWhole(strict: bool, c: Chain, trailing: Option<string>)
    requires WfChain(c) && IsTrailing(trailing)
    ensures Whole(strict, FmtMultilineChain(c, trailing, End))
  {
    MultilineChainSafe(strict, c, trailing, End);
    hide FmtLongStruct, FmtEndpoint, FmtStages, FmtStageLines, Width, WfChain;
    UnfoldEnds();
    if IsLongStruct(c.source) {
      var n := InlineCount(c.stages);
      var lines := LineEnd(trailing, FmtStageLines(c.stages[n..], End));
      StageLinesEnd(c.stages[n..]);
      StagesAppend(c.stages[..n], End, lines);
      AppendEnds(FmtStages(c.stages[..n], End), lines);
      LongStructAppend(c.source, End, FmtStages(c.stages[..n], lines));
      AppendEnds(FmtLongStruct(c.source, End), FmtStages(c.stages[..n], lines));
    } else {
      var lines := LineEnd(trailing, FmtStageLines(c.stages, End));
      StageLinesEnd(c.stages);
      EndpointAppend(c.source, End, lines);
      AppendEnds(FmtEndpoint(c.source, End), lines);
    }
  }

  // ---- Callables and modules ----

  lemma NewLineWhole(strict: bool)
    ensures Whole(strict, NewLine(End))
  {
    FormatSafety.Unfold(strict);
    hide Laid, Runs, IsGap;
    UnfoldEnds();
  }

  lemma BlankLineWhole(strict: bool, acc: Text)
    requires Whole(strict, acc)
    ensures Whole(strict, BlankLine(acc))
  {
    NewLineWhole(strict);
    AppendWhole(strict, acc, NewLine(End));
  }

  lemma FlushWhole(strict: bool, acc: Text, group: seq<Row>)
    requires Whole(strict, acc) && WfRows(group)
    ensures Whole(strict, Flush(acc, group))
  {
    GroupWhole(strict, group, group);
    AppendWhole(strict, acc, FmtGroup(group, group, End));
  }

  lemma BreakWhole(strict: bool, acc: Text, group: seq<Row>, i: nat, c: ChainComments)
    requires Whole(strict, acc) && WfRows(group) && ChainSkips(c)
    ensures Whole(strict, Break(acc, group, i, c))
  {
    hide Flush, BlankLine, Whole, Remarks, WfRows;
    FlushWhole(strict, acc, group);
    BlankLineWhole(strict, Flush(acc, group));
    RemarksWhole(strict, INDENT, c.leading);
    AppendWhole(strict, if c.blank && i > 0 then BlankLine(Flush(acc, group)) else Flush(acc, group), Remarks(INDENT, c.leading));
  }

  /** The comments of a chain, and its group with it. */
  lemma ChainFacts(chain: Chain, group: seq<Row>, comments: seq<ChainComments>, i: nat)
    requires WfChain(chain) && WfRows(group) && ChainsSkip(comments)
    ensures ChainSkips(ChainAt(comments, i)) && IsTrailing(ChainAt(comments, i).trailing)
    ensures WfRows([]) && WfRows([Row(chain, ChainAt(comments, i).trailing)])
    ensures WfRows(group + [Row(chain, ChainAt(comments, i).trailing)])
  {
    BareSkips();
    hide WfChain, RemarksSkip, IsTrailing;
  }

  lemma {:induction false} BodyWhole(strict: bool, acc: Text, group: seq<Row>, chains: seq<Chain>, i: nat,
      comments: seq<ChainComments>)
    requires Whole(strict, acc) && i <= |chains| && WfRows(group) && ChainsSkip(comments)
    requires forall j :: 0 <= j < |chains| ==> WfChain(chains[j])
    ensures Whole(strict, FmtBody(acc, group, chains, i, comments))
    decreases |chains| - i
  {
    hide WfChain, IsMultiline, Break, FmtMultilineChain, Flush, Whole, WfRows, ChainsSkip, ChainSkips, ChainAt;
    FlushWhole(strict, acc, group);
    if i < |chains| {
      var c := ChainAt(comments, i);
      ChainFacts(chains[i], group, comments, i);
      BreakWhole(strict, acc, group, i, c);
      var acc1 := if Breaks(c) then Break(acc, group, i, c) else acc;
      var group1 := if Breaks(c) then [] else group;
      if IsMultiline(chains[i]) {
        var lines := FmtMultilineChain(chains[i], c.trailing, End);
        FlushWhole(strict, acc1, group1);
        MultilineChainWhole(strict, chains[i], c.trailing);
        AppendWhole(strict, Flush(acc1, group1), lines);
        BodyWhole(strict, Append(Flush(acc1, group1), lines), [], chains, i + 1, comments);
      } else {
        assert [] + [Row(chains[i], c.trailing)] == [Row(chains[i], c.trailing)];
        BodyWhole(strict, acc1, group1 + [Row(chains[i], c.trailing)], chains, i + 1, comments);
      }
    }
  }

  /** The line up to the brace, after its keyword. */
  lemma SignatureWhole(strict: bool, c: Callable)
    requires WfCallable(c) && (strict ==> CallableApart(c))
    ensures
      var outputs := FmtPortOrList(c.outputs, W(" ", T(LBrace, NewLine(End))));
      var inputs := FmtInputs(c.inputs, W(" ", T(Arrow, W(" ", outputs))));
      Whole(strict, W(" ", T(Ident(c.name), FmtParams(c.nodeParams, inputs))))
  {
    hide FmtPortOrList, FmtInputs, FmtParamList, WfPorts, PortsApart, WfParam, Apart, WfChain, IsIdent;
    var brace := W(" ", T(LBrace, NewLine(End)));
    var outputs := FmtPortOrList(c.outputs, brace);
    var arrow := W(" ", T(Arrow, W(" ", outputs)));
    var inputs := FmtInputs(c.inputs, arrow);
    UnfoldEnds();
    FormatSafety.Unfold(strict);
    hide Laid, Runs, IsGap;
    PortOrListAppend(c.outputs, End, brace);
    AppendEnds(FmtPortOrList(c.outputs, End), brace);
    PortOrListSafe(strict, c.outputs, brace);
    InputsAppend(c.inputs, End, arrow);
    AppendEnds(FmtInputs(c.inputs, End), arrow);
    InputsSafe(strict, c.inputs, arrow);
    ParamsWhole(strict, c.nodeParams, inputs);
  }

  lemma ParamsWhole(strict: bool, ps: seq<NodeParam>, inputs: Text)
    requires forall i :: 0 <= i < |ps| ==>
               WfParam(ps[i]) && (strict ==> Apart(ps[i].input)) && (strict ==> Apart(ps[i].output))
    requires Whole(strict, inputs) && inputs != End
    ensures Whole(strict, FmtParams(ps, inputs)) && FmtParams(ps, inputs) != End
  {
    hide FmtParamList, WfParam, Apart;
    UnfoldEnds();
    FormatSafety.Unfold(strict);
    hide Laid, Runs, IsGap;
    if ps != [] {
      var last := T(Greater, inputs);
      ParamListAppend(ps, End, last);
      AppendEnds(FmtParamList(ps, End), last);
      ParamListSafe(strict, ps, last);
    }
  }

  predicate IsKind(kind: Text) { kind == NODE || kind == EXTERN_NODE || kind == PROGRAM }

  lemma HeaderWhole(strict: bool, kind: Text, c: Callable)
    requires WfCallable(c) && (strict ==> CallableApart(c)) && IsKind(kind)
    ensures Whole(strict, FmtHeader(kind, c, End))
  {
    SignatureWhole(strict, c);
    hide FmtPortOrList, FmtInputs, FmtParams, WfCallable, CallableApart;
    var outputs := FmtPortOrList(c.outputs, W(" ", T(LBrace, NewLine(End))));
    var inputs := FmtInputs(c.inputs, W(" ", T(Arrow, W(" ", outputs))));
    KindWhole(strict, kind, T(Ident(c.name), FmtParams(c.nodeParams, inputs)));
  }

  lemma KindWhole(strict: bool, kind: Text, k: Text)
    requires IsKind(kind) && Whole(strict, W(" ", k))
    ensures Whole(strict, Append(kind, W(" ", k)))
  {
    FormatAppend.Unfold();
    FormatSafety.Unfold(strict);
    hide Laid, Runs, IsGap;
    UnfoldEnds();
    assert IsIdent("node") && IsIdent("extern") && IsIdent("program");
  }

  lemma CallableWhole(strict: bool, acc: Text, kind: Text, c: Callable, comments: seq<ChainComments>)
    requires Whole(strict, acc) && WfCallable(c) && (strict ==> CallableApart(c)) && IsKind(kind) && ChainsSkip(comments)
    ensures Whole(strict, FmtCallable(acc, kind, c, comments))
  {
    HeaderWhole(strict, kind, c);
    hide FmtHeader, FmtBody, CallableApart, WfChain, ChainsSkip;
    var header := FmtHeader(kind, c, End);
    AppendWhole(strict, acc, header);
    BodyWhole(strict, Append(acc, header), [], c.chains, 0, comments);
    BraceWhole(strict);
    AppendWhole(strict, FmtBody(Append(acc, header), [], c.chains, 0, comments), T(RBrace, NewLine(End)));
  }

  lemma BraceWhole(strict: bool)
    ensures Whole(strict, T(RBrace, NewLine(End)))
  {
    FormatSafety.Unfold(strict);
    hide Laid, Runs, IsGap;
    UnfoldEnds();
  }

  lemma DeclWhole(strict: bool, acc: Text, d: Decl, comments: seq<ChainComments>)
    requires Whole(strict, acc) && WfDecl(d) && (strict ==> DeclApart(d)) && ChainsSkip(comments)
    ensures Whole(strict, FmtDecl(acc, d, comments))
  {
    hide FmtAlias, FmtStruct, FmtImport, FmtForeign, FmtCallable, WfCallable, CallableApart, Whole, ChainsSkip;
    match d
    case TypeAlias(n, ty) =>
      AliasWhole(strict, n, ty);
      AppendWhole(strict, acc, FmtAlias(n, ty, End));
    case StructDecl(n, fields) =>
      StructWhole(strict, n, fields);
      AppendWhole(strict, acc, FmtStruct(n, fields, End));
    case Import(source, clause) =>
      ImportWhole(strict, source, clause);
      AppendWhole(strict, acc, FmtImport(source, clause, End));
    case Foreign(language, origin, nodes) =>
      ForeignWhole(strict, language, origin, nodes);
      AppendWhole(strict, acc, FmtForeign(language, origin, nodes, End));
    case Node(c) => CallableWhole(strict, acc, if c.isExtern then EXTERN_NODE else NODE, c, comments);
    case Program(c) => CallableWhole(strict, acc, PROGRAM, c, comments);
  }

  lemma BetweenWhole(strict: bool, acc: Text, ds: seq<Decl>, i: nat, leading: seq<string>)
    requires Whole(strict, acc) && i < |ds| && RemarksSkip("", leading)
    ensures Whole(strict, Between(acc, ds, i, leading))
  {
    hide BlankLine, NeedsBlankBetween, Whole, Remarks;
    BlankLineWhole(strict, acc);
    RemarksWhole(strict, "", leading);
    AppendWhole(strict, if i > 0 && NeedsBlankBetween(ds[i - 1], ds[i]) then BlankLine(acc) else acc, Remarks("", leading));
  }

  lemma DeclCommentsSkip(layout: Layout, i: nat)
    requires LayoutSkips(layout)
    ensures RemarksSkip("", DeclAt(layout, i).leading) && ChainsSkip(DeclAt(layout, i).chains)
  {
    BareSkips();
    hide RemarksSkip;
  }

  lemma {:induction false} DeclsWhole(strict: bool, acc: Text, ds: seq<Decl>, i: nat, layout: Layout)
    requires Whole(strict, acc) && i <= |ds| && LayoutSkips(layout)
    requires forall j :: 0 <= j < |ds| ==> WfDecl(ds[j]) && (strict ==> DeclApart(ds[j]))
    ensures Whole(strict, FmtDecls(acc, ds, i, layout))
    decreases |ds| - i
  {
    hide FmtDecl, WfDecl, DeclApart, Between, Whole, LayoutSkips, DeclAt, RemarksSkip, ChainsSkip;
    if i < |ds| {
      var c := DeclAt(layout, i);
      var acc1 := Between(acc, ds, i, c.leading);
      DeclCommentsSkip(layout, i);
      BetweenWhole(strict, acc, ds, i, c.leading);
      DeclWhole(strict, acc1, ds[i], c.chains);
      DeclsWhole(strict, FmtDecl(acc1, ds[i], c.chains), ds, i + 1, layout);
    }
  }

  lemma ModuleWhole(strict: bool, m: Module, layout: Layout)
    requires WfModule(m) && (strict ==> ModuleApart(m)) && LayoutSkips(layout)
    ensures Whole(strict, FmtModule(m, layout))
  {
    hide WfDecl, DeclApart, Whole, LayoutSkips;
    EmptyWhole(strict);
    DeclsWhole(strict, End, m.declarations, 0, layout);
    NewLineWhole(strict);
    AppendWhole(strict, FmtDecls(End, m.declarations, 0, layout), NewLine(End));
  }

  lemma EmptyWhole(strict: bool)
    ensures Whole(strict, End)
  {
  }

  // ---- Main results ----

  /** parser::parse, with its error messages left out. */
  function Parse(source: string): Option<Module>
  {
    match Lexer.Lex(source)
    case NoTokens => None
    case SomeTokens(ts) => ParseModule(ListOf(ts))
  }

  /** Writing a well-formed module with comments that are skipped and parsing the text gives the module back. */
  lemma PrintedModuleParses(m: Module, layout: Layout)
    requires WfModule(m) && ModuleApart(m) && LayoutSkips(layout)
    ensures Parse(Render(FmtModule(m, layout))) == Some(m)
  {
    var t := FmtModule(m, layout);
    ModuleWhole(true, m, layout);
    RenderedLexes(t);
    ModuleTokens(m, layout);
    RoundTrip.ModuleParsed(m, LastCommas(m.declarations));
  }

  lemma {:induction false} LexedIsClean(ts: seq<Token>)
    requires Lexer.AllLexable(ts)
    ensures Clean(ListOf(ts))
  {
    if ts != [] {
      LexedIsClean(ts[1..]);
    }
  }

  /** A module that comes out of the parser is well-formed. */
  lemma ParsedIsWellFormed(source: string)
    ensures Parse(source).Some? ==> WfModule(Parse(source).value)
  {
    Lexer.LexedIsLexable(source);
    var r := Lexer.Lex(source);
    if r.SomeTokens? {
      LexedIsClean(r.tokens);
      ModuleResult(ListOf(r.tokens));
    }
  }
}
