/** Formatting loses the program exactly when the tokens of an annotation run into each other. */
module FormatLimits {
  import opened Tokens
  import opened Ast
  import Lexer
  import opened Parsing
  import opened WellFormed
  import opened Rendering
  import opened Comments
  import opened Formatting
  import opened FormatTokens
  import opened FormatSafety
  import opened FormatSource
  import FormatAppend
  import Merging
  import ParserWeights

  // ---- A text that stays apart has annotations that stay apart ----

  lemma {:induction false} TypeTailStays(ty: TypeText, k: Text)
    requires Laid(true, FmtTypeTail(ty, k))
    ensures Apart(ty) && Laid(true, k)
  {
    if |ty| > 1 {
      TypeTailStays(ty[1..], k);
      assert ty[1..][0] == ty[1];
      if |ty| > 2 { assert ty[1..][1..] == ty[2..] && ty[1..][1] == ty[2]; }
      forall i | 0 <= i < |ty| - 1 ensures !Joins(ty[i], ty[i + 1]) {
        if i > 0 { assert ty[i] == ty[1..][i - 1] && ty[i + 1] == ty[1..][i]; }
      }
      forall i | 0 <= i < |ty| - 2 ensures !IsPoint(ty[i], ty[i + 1], ty[i + 2]) {
        if i > 0 {
          assert ty[i] == ty[1..][i - 1] && ty[i + 1] == ty[1..][i] && ty[i + 2] == ty[1..][i + 1];
        } else if IsPoint(ty[0], ty[1], ty[2]) {
          PointIsDigit(ty[2], FmtTypeTail(ty[2..], k));
        }
      }
    }
  }

  lemma PointIsDigit(v: Token, k: Text)
    requires v.Int? && v.value >= 0 && k.T? && k.token == v
    ensures DigitFirst(k)
  {
    assert AllDigits(DecimalText(v.value));
  }

  lemma TypeStays(ty: TypeText, k: Text)
    requires Laid(true, FmtType(ty, k))
    ensures Apart(ty) && Laid(true, k)
  {
    TypeTailStays(ty, k);
  }

  lemma PortStays(p: Port, k: Text)
    requires Laid(true, FmtPort(p, k))
    ensures Apart(p.ty) && Laid(true, k)
  {
    hide FmtType, Apart;
    FormatSafety.Unfold(true);
    hide Laid;
    TypeStays(p.ty, k);
  }

  lemma {:induction false} PortsStay(ps: seq<Port>, k: Text)
    requires Laid(true, FmtPorts(ps, k))
    ensures PortsApart(ps) && Laid(true, k)
  {
    hide FmtPort, Apart;
    if ps != [] {
      PortStays(ps[0], if |ps| == 1 then k else T(Comma, W(" ", FmtPorts(ps[1..], k))));
      if |ps| > 1 {
        PortsStay(ps[1..], k);
        AllPorts(ps);
      }
    }
  }

  lemma AllPorts(ps: seq<Port>)
    requires ps != [] && Apart(ps[0].ty) && PortsApart(ps[1..])
    ensures PortsApart(ps)
  {
    assert forall i :: 1 <= i < |ps| ==> ps[i] == ps[1..][i - 1];
  }

  lemma PortOrListStays(ps: seq<Port>, k: Text)
    requires Laid(true, FmtPortOrList(ps, k))
    ensures PortsApart(ps) && Laid(true, k)
  {
    hide FmtPort, Apart;
    if |ps| == 1 { PortStays(ps[0], k); } else { PortsStay(ps, T(RParen, k)); }
  }

  lemma ParamStays(p: NodeParam, k: Text)
    requires Laid(true, FmtParam(p, k))
    ensures Apart(p.input) && Apart(p.output) && Laid(true, k)
  {
    hide FmtType, Apart;
    FormatSafety.Unfold(true);
    hide Laid;
    TypeStays(p.input, T(RParen, W(" ", T(Arrow, W(" ", FmtType(p.output, k))))));
    TypeStays(p.output, k);
  }

  predicate ParamsApart(ps: seq<NodeParam>) { forall i :: 0 <= i < |ps| ==> Apart(ps[i].input) && Apart(ps[i].output) }

  lemma {:induction false} ParamListStays(ps: seq<NodeParam>, k: Text)
    requires Laid(true, FmtParamList(ps, k))
    ensures ParamsApart(ps) && Laid(true, k)
  {
    hide FmtParam, Apart;
    if ps != [] {
      ParamStays(ps[0], if |ps| == 1 then k else T(Comma, W(" ", FmtParamList(ps[1..], k))));
      if |ps| > 1 {
        ParamListStays(ps[1..], k);
        assert forall i :: 1 <= i < |ps| ==> ps[i] == ps[1..][i - 1];
      }
    }
  }

  lemma {:induction false} StructLinesStay(ps: seq<Port>, k: Text)
    requires Laid(true, FmtStructLines(ps, k))
    ensures PortsApart(ps)
  {
    hide FmtPort, Apart;
    if ps != [] {
      PortStays(ps[0], T(Comma, NewLine(FmtStructLines(ps[1..], k))));
      StructLinesStay(ps[1..], k);
      AllPorts(ps);
    }
  }

  lemma {:induction false} QNameStays(q: QName, k: Text)
    requires Laid(true, FmtQName(q, k))
    ensures Laid(true, k)
  {
    if q != [] { SegmentsStay(q[1..], k); }
  }

  lemma {:induction false} SegmentsStay(q: QName, k: Text)
    requires Laid(true, FmtSegments(q, k))
    ensures Laid(true, k)
  {
    if q != [] { SegmentsStay(q[1..], k); }
  }

  lemma ForeignNodeStays(n: ForeignNode, k: Text)
    requires Laid(true, FmtForeignNode(n, k))
    ensures PortsApart(n.inputs) && PortsApart(n.outputs) && Laid(true, k)
  {
    hide FmtPorts, FmtPortOrList, FmtQName, PortsApart;
    FormatSafety.Unfold(true);
    hide Laid;
    var result := W(" ", T(Equal, W(" ", FmtQName(n.symbol, k))));
    PortsStay(n.inputs, T(RParen, W(" ", T(Arrow, W(" ", FmtPortOrList(n.outputs, result))))));
    PortOrListStays(n.outputs, result);
    QNameStays(n.symbol, k);
  }

  lemma {:induction false} ForeignLinesStay(ns: seq<ForeignNode>, k: Text)
    requires Laid(true, FmtForeignLines(ns, k))
    ensures forall i :: 0 <= i < |ns| ==> PortsApart(ns[i].inputs) && PortsApart(ns[i].outputs)
  {
    hide FmtForeignNode, PortsApart;
    if ns != [] {
      ForeignNodeStays(ns[0], NewLine(FmtForeignLines(ns[1..], k)));
      ForeignLinesStay(ns[1..], k);
      assert forall i :: 1 <= i < |ns| ==> ns[i] == ns[1..][i - 1];
    }
  }

  lemma ForeignHeadStays(language: ForeignTarget, origin: ForeignSource, k: Text)
    requires Laid(true, FmtForeignHead(language, origin, k))
    ensures Laid(true, k)
  {
    FormatSafety.Unfold(true);
    hide Laid, Leads, Runs, Lexable;
  }

  // ---- Pieces of a text ----

  lemma {:induction false} PartsStay(t: Text, u: Text)
    requires Laid(true, Append(t, u)) && Ends(t)
    ensures Laid(true, t) && Laid(true, u)
  {
    match t
    case End =>
    case T(token, rest) =>
      PartsStay(rest, u);
      LeadsAppend(token, rest, u);
    case W(blank, rest) => PartsStay(rest, u);
  }

  lemma BlankLineStays(acc: Text)
    requires Laid(true, BlankLine(acc)) && Ends(acc)
    ensures Laid(true, acc)
  {
    if BlankLine(acc) != acc { PartsStay(acc, NewLine(End)); }
  }

  lemma FlushStays(acc: Text, group: seq<Row>)
    requires Laid(true, Flush(acc, group)) && Ends(acc)
    ensures Laid(true, acc)
  {
    PartsStay(acc, FmtGroup(group, group, End));
  }

  lemma BreakStays(acc: Text, group: seq<Row>, i: nat, c: ChainComments)
    requires Whole(false, acc) && WfRows(group) && Laid(true, Break(acc, group, i, c))
    ensures Laid(true, acc)
  {
    FlushWhole(false, acc, group);
    BlankLineWhole(false, Flush(acc, group));
    hide Laid, WfRows, Remarks, BlankLine, Flush;
    PartsStay(if c.blank && i > 0 then BlankLine(Flush(acc, group)) else Flush(acc, group), Remarks(INDENT, c.leading));
    if c.blank && i > 0 { BlankLineStays(Flush(acc, group)); }
    FlushStays(acc, group);
  }

  lemma {:induction false} BodyStays(acc: Text, group: seq<Row>, chains: seq<Chain>, i: nat, comments: seq<ChainComments>)
    requires Whole(false, acc) && i <= |chains| && WfRows(group) && ChainsSkip(comments)
    requires Laid(true, FmtBody(acc, group, chains, i, comments))
    requires forall j :: 0 <= j < |chains| ==> WfChain(chains[j])
    ensures Laid(true, acc)
    decreases |chains| - i
  {
    hide WfChain, IsMultiline, Break, FmtMultilineChain, Flush, Laid, WfRows, ChainsSkip, ChainSkips, ChainAt, Ends;
    if i == |chains| {
      FlushStays(acc, group);
    } else {
      var c := ChainAt(comments, i);
      ChainFacts(chains[i], group, comments, i);
      BreakWhole(false, acc, group, i, c);
      var acc1 := if Breaks(c) then Break(acc, group, i, c) else acc;
      var group1 := if Breaks(c) then [] else group;
      if IsMultiline(chains[i]) {
        var lines := FmtMultilineChain(chains[i], c.trailing, End);
        FlushWhole(false, acc1, group1);
        MultilineChainWhole(false, chains[i], c.trailing);
        AppendWhole(false, Flush(acc1, group1), lines);
        BodyStays(Append(Flush(acc1, group1), lines), [], chains, i + 1, comments);
        PartsStay(Flush(acc1, group1), lines);
        FlushStays(acc1, group1);
      } else {
        assert [] + [Row(chains[i], c.trailing)] == [Row(chains[i], c.trailing)];
        BodyStays(acc1, group1 + [Row(chains[i], c.trailing)], chains, i + 1, comments);
      }
      if Breaks(c) { BreakStays(acc, group, i, c); }
    }
  }

  // ---- Declarations and modules ----

  lemma HeaderStays(kind: Text, c: Callable)
    requires IsKind(kind) && Laid(true, FmtHeader(kind, c, End))
    ensures CallableApart(c)
  {
    hide FmtPorts, FmtPortOrList, FmtParamList, PortsApart, Apart;
    FormatAppend.Unfold();
    FormatSafety.Unfold(true);
    hide Laid, Leads, Runs, Lexable;
    var outputs := FmtPortOrList(c.outputs, W(" ", T(LBrace, NewLine(End))));
    var inputs := FmtInputs(c.inputs, W(" ", T(Arrow, W(" ", outputs))));
    assert Laid(true, T(Ident(c.name), FmtParams(c.nodeParams, inputs)));
    if c.nodeParams != [] { ParamListStays(c.nodeParams, T(Greater, inputs)); }
    PortsStay(c.inputs, T(RParen, W(" ", T(Arrow, W(" ", outputs)))));
    PortOrListStays(c.outputs, W(" ", T(LBrace, NewLine(End))));
  }

  lemma CallableStays(acc: Text, kind: Text, c: Callable, comments: seq<ChainComments>)
    requires Whole(false, acc) && WfCallable(c) && IsKind(kind) && ChainsSkip(comments)
    requires Laid(true, FmtCallable(acc, kind, c, comments))
    ensures Laid(true, acc) && CallableApart(c)
  {
    HeaderWhole(false, kind, c);
    hide FmtHeader, FmtBody, CallableApart, WfChain, Laid, ChainsSkip;
    var header := FmtHeader(kind, c, End);
    AppendWhole(false, acc, header);
    var start := Append(acc, header);
    BodyWhole(false, start, [], c.chains, 0, comments);
    PartsStay(FmtBody(start, [], c.chains, 0, comments), T(RBrace, NewLine(End)));
    BodyStays(start, [], c.chains, 0, comments);
    PartsStay(acc, header);
    HeaderStays(kind, c);
  }

  lemma PlainDeclStays(d: Decl)
    requires !d.Node? && !d.Program? && Laid(true, FmtDecl(End, d, []))
    ensures DeclApart(d)
  {
    hide FmtType, FmtStructLines, FmtForeignLines, FmtForeignHead, FmtImport, Apart, PortsApart;
    FormatSafety.Unfold(true);
    hide Laid, Leads, Runs, Lexable;
    match d
    case TypeAlias(n, ty) => TypeStays(ty, NewLine(End));
    case StructDecl(n, fields) => StructLinesStay(fields, T(RBrace, NewLine(End)));
    case Foreign(language, origin, nodes) =>
      var body := T(LBrace, NewLine(FmtForeignLines(nodes, T(RBrace, NewLine(End)))));
      ForeignHeadStays(language, origin, W(" ", body));
      ForeignLinesStay(nodes, T(RBrace, NewLine(End)));
    case _ =>
  }

  lemma DeclStays(acc: Text, d: Decl, comments: seq<ChainComments>)
    requires Whole(false, acc) && WfDecl(d) && ChainsSkip(comments) && Laid(true, FmtDecl(acc, d, comments))
    ensures Laid(true, acc) && DeclApart(d)
  {
    hide FmtAlias, FmtStruct, FmtImport, FmtForeign, FmtCallable, WfCallable, CallableApart, Laid, ChainsSkip;
    if d.Node? || d.Program? {
      var kind := if d.Program? then PROGRAM else if d.callable.isExtern then EXTERN_NODE else NODE;
      CallableStays(acc, kind, d.callable, comments);
    } else {
      PartsStay(acc, FmtDecl(End, d, []));
      PlainDeclStays(d);
    }
  }

  lemma BetweenStays(acc: Text, ds: seq<Decl>, i: nat, leading: seq<string>)
    requires Whole(false, acc) && i < |ds| && Laid(true, Between(acc, ds, i, leading))
    ensures Laid(true, acc)
  {
    BlankLineWhole(false, acc);
    hide Laid, Remarks, BlankLine, NeedsBlankBetween;
    var blank := i > 0 && NeedsBlankBetween(ds[i - 1], ds[i]);
    PartsStay(if blank then BlankLine(acc) else acc, Remarks("", leading));
    if blank { BlankLineStays(acc); }
  }

  lemma {:induction false} DeclsStay(acc: Text, ds: seq<Decl>, i: nat, layout: Layout)
    requires Whole(false, acc) && i <= |ds| && LayoutSkips(layout) && Laid(true, FmtDecls(acc, ds, i, layout))
    requires forall j :: 0 <= j < |ds| ==> WfDecl(ds[j])
    ensures Laid(true, acc) && forall j :: i <= j < |ds| ==> DeclApart(ds[j])
    decreases |ds| - i
  {
    hide FmtDecl, WfDecl, DeclApart, Between, Whole, Laid, LayoutSkips, DeclAt, RemarksSkip, ChainsSkip;
    if i < |ds| {
      var c := DeclAt(layout, i);
      var acc1 := Between(acc, ds, i, c.leading);
      DeclCommentsSkip(layout, i);
      BetweenWhole(false, acc, ds, i, c.leading);
      DeclWhole(false, acc1, ds[i], c.chains);
      DeclsStay(FmtDecl(acc1, ds[i], c.chains), ds, i + 1, layout);
      DeclStays(acc1, ds[i], c.chains);
      BetweenStays(acc, ds, i, c.leading);
    }
  }

  lemma ModuleStays(m: Module, layout: Layout)
    requires WfModule(m) && LayoutSkips(layout) && Laid(true, FmtModule(m, layout))
    ensures ModuleApart(m)
  {
    hide WfDecl, DeclApart, Laid, Ends, LayoutSkips;
    EmptyWhole(false);
    var t := FmtDecls(End, m.declarations, 0, layout);
    DeclsWhole(false, End, m.declarations, 0, layout);
    if FmtModule(m, layout) != t { PartsStay(t, NewLine(End)); }
    DeclsStay(End, m.declarations, 0, layout);
  }

  // ---- Main result ----

  lemma MergedModuleIsLost(m: Module, layout: Layout)
    requires WfModule(m) && LayoutSkips(layout) && !ModuleApart(m)
    ensures Parse(Render(FmtModule(m, layout))) != Some(m)
  {
    var t := FmtModule(m, layout);
    ModuleWhole(false, m, layout);
    if Safe(t) { ModuleStays(m, layout); }
    Merging.MergedTokensAreLost(t);
    ModuleTokens(m, layout);
    var r := Lexer.Lex(Render(t));
    if r.SomeTokens? && ParseModule(ListOf(r.tokens)) == Some(m) {
      ParserWeights.ModuleTakes(ListOf(r.tokens), LastCommas(m.declarations));
    }
  }

  /**
   * A printed module whose comments are skipped is parsed back exactly when no annotation has tokens that are lexed
   * as one once the blanks between them are gone.
   */
  lemma PrintedModuleParsesIff(m: Module, layout: Layout)
    requires WfModule(m) && LayoutSkips(layout)
    ensures Parse(Render(FmtModule(m, layout))) == Some(m) <==> ModuleApart(m)
  {
    if ModuleApart(m) { PrintedModuleParses(m, layout); } else { MergedModuleIsLost(m, layout); }
  }
}
