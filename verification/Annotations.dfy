/**
 * The program keeps an annotation as one string, the texts of its tokens joined (src/parser.rs:315-395). Two trees
 * whose annotations have the same strings are the same tree to it.
 */
module Annotations {
  import opened Tokens
  import opened Ast
  import Lexer
  import opened Parsing
  import opened WellFormed
  import opened ParserResults
  import RoundTrip
  import opened Rendering
  import opened Comments
  import opened Formatting
  import opened FormatSafety
  import opened FormatSource
  import FormatAppend
  import FormatTokens
  import FormatLimits
  import opened Formatter
  import Merging
  import ParserWeights

  // ---- The same trees up to how annotations are cut into tokens ----

  predicate PortsLike(ps: seq<Port>, qs: seq<Port>)
  {
    && |ps| == |qs|
    && forall i :: 0 <= i < |ps| ==> ps[i].name == qs[i].name && TypeString(ps[i].ty) == TypeString(qs[i].ty)
  }

  predicate ParamLike(p: NodeParam, q: NodeParam)
  {
    p.name == q.name && TypeString(p.input) == TypeString(q.input) && TypeString(p.output) == TypeString(q.output)
  }

  predicate ParamsLike(ps: seq<NodeParam>, qs: seq<NodeParam>)
  {
    |ps| == |qs| && forall i :: 0 <= i < |ps| ==> ParamLike(ps[i], qs[i])
  }

  predicate ForeignNodeLike(n: ForeignNode, o: ForeignNode)
  {
    && n.name == o.name && n.effect == o.effect && n.symbol == o.symbol
    && PortsLike(n.inputs, o.inputs) && PortsLike(n.outputs, o.outputs)
  }

  predicate CallableLike(c: Callable, d: Callable)
  {
    && c.name == d.name && c.isExtern == d.isExtern && c.chains == d.chains
    && ParamsLike(c.nodeParams, d.nodeParams) && PortsLike(c.inputs, d.inputs) && PortsLike(c.outputs, d.outputs)
  }

  predicate DeclLike(d: Decl, e: Decl)
  {
    match (d, e)
    case (TypeAlias(n, ty), TypeAlias(m, uy)) => n == m && TypeString(ty) == TypeString(uy)
    case (StructDecl(n, ps), StructDecl(m, qs)) => n == m && PortsLike(ps, qs)
    case (Import(_, _), Import(_, _)) => d == e
    case (Foreign(l, o, ns), Foreign(k, p, ms)) =>
      l == k && o == p && |ns| == |ms| && forall i :: 0 <= i < |ns| ==> ForeignNodeLike(ns[i], ms[i])
    case (Node(c), Node(b)) => CallableLike(c, b)
    case (Program(c), Program(b)) => CallableLike(c, b)
    case _ => false
  }

  predicate ModuleLike(m: Module, n: Module)
  {
    && |m.declarations| == |n.declarations|
    && forall i :: 0 <= i < |m.declarations| ==> DeclLike(m.declarations[i], n.declarations[i])
  }

  // ---- Such trees are printed alike ----

  predicate Alike(t: Text, u: Text) { Render(t) == Render(u) }

  /** Lets the verifier compare texts as far as they are spelled out. */
  lemma Unfold()
    ensures forall token, t, u :: Alike(t, u) ==> Alike(T(token, t), T(token, u))
    ensures forall blank, t, u :: Alike(t, u) ==> Alike(W(blank, t), W(blank, u))
  {
  }

  lemma {:induction false} TypeIsPlain(empty: bool, depth: nat, ty: TypeText)
    requires TypeReads(empty, depth, ty)
    ensures TypeTokensOnly(ty)
    decreases |ty|
  {
    if ty != [] {
      TypeIsPlain(false, DepthAfter(depth, ty[0]), ty[1..]);
      assert forall i :: 1 <= i < |ty| ==> ty[i] == ty[1..][i - 1];
    }
  }

  lemma TypeText(ty: TypeText, k: Text)
    requires WfType(ty)
    ensures Render(FmtType(ty, k)) == TypeName("", TypeString(ty)) + Render(k)
  {
    TypeIsPlain(true, 0, ty);
    TypeNameLaidOut(ty);
    FormatAppend.TypeAppend(ty, End, k);
    assert Append(End, k) == k;
    RenderAppend(FmtType(ty, End), k);
  }

  lemma TypeAlike(ty: TypeText, uy: TypeText, k: Text, l: Text)
    requires WfType(ty) && WfType(uy) && TypeString(ty) == TypeString(uy) && Alike(k, l)
    ensures Alike(FmtType(ty, k), FmtType(uy, l))
  {
    TypeText(ty, k);
    TypeText(uy, l);
  }

  lemma PortAlike(p: Port, q: Port, k: Text, l: Text)
    requires WfPort(p) && WfPort(q) && p.name == q.name && TypeString(p.ty) == TypeString(q.ty) && Alike(k, l)
    ensures Alike(FmtPort(p, k), FmtPort(q, l))
  {
    Unfold();
    TypeAlike(p.ty, q.ty, k, l);
    hide Alike, FmtType, TypeString;
  }

  lemma PortsTail(ps: seq<Port>, qs: seq<Port>)
    requires PortsLike(ps, qs) && ps != [] && WfPorts(ps) && WfPorts(qs)
    ensures PortsLike(ps[1..], qs[1..]) && WfPorts(ps[1..]) && WfPorts(qs[1..])
    ensures WfPort(ps[0]) && WfPort(qs[0]) && ps[0].name == qs[0].name && TypeString(ps[0].ty) == TypeString(qs[0].ty)
  {
    hide TypeString, WfPort;
  }

  lemma {:induction false} PortsAlike(ps: seq<Port>, qs: seq<Port>, k: Text, l: Text)
    requires WfPorts(ps) && WfPorts(qs) && PortsLike(ps, qs) && Alike(k, l)
    ensures Alike(FmtPorts(ps, k), FmtPorts(qs, l))
  {
    Unfold();
    hide Alike, FmtPort, WfPorts, PortsLike, TypeString;
    if |ps| > 0 {
      PortsTail(ps, qs);
      SameLength(ps, qs);
      PortsAlike(ps[1..], qs[1..], k, l);
      if |ps| == 1 {
        PortAlike(ps[0], qs[0], k, l);
      } else {
        PortAlike(ps[0], qs[0], T(Comma, W(" ", FmtPorts(ps[1..], k))), T(Comma, W(" ", FmtPorts(qs[1..], l))));
      }
    } else {
      SameLength(ps, qs);
    }
  }

  lemma SameLength(ps: seq<Port>, qs: seq<Port>)
    requires PortsLike(ps, qs)
    ensures |ps| == |qs|
  {}

  lemma PortOrListAlike(ps: seq<Port>, qs: seq<Port>, k: Text, l: Text)
    requires WfPorts(ps) && WfPorts(qs) && PortsLike(ps, qs) && Alike(k, l)
    ensures Alike(FmtPortOrList(ps, k), FmtPortOrList(qs, l))
  {
    Unfold();
    hide Alike, FmtPort, WfPorts, PortsLike, TypeString;
    SameLength(ps, qs);
    if |ps| == 1 {
      PortsTail(ps, qs);
      PortAlike(ps[0], qs[0], k, l);
    } else {
      PortsAlike(ps, qs, T(RParen, k), T(RParen, l));
    }
  }

  lemma ParamAlike(p: NodeParam, q: NodeParam, k: Text, l: Text)
    requires WfParam(p) && WfParam(q) && ParamLike(p, q) && Alike(k, l)
    ensures Alike(FmtParam(p, k), FmtParam(q, l))
  {
    Unfold();
    hide Alike, FmtType, TypeString, WfType;
    TypeAlike(p.output, q.output, k, l);
    TypeAlike(p.input, q.input,
      T(RParen, W(" ", T(Arrow, W(" ", FmtType(p.output, k))))), T(RParen, W(" ", T(Arrow, W(" ", FmtType(q.output, l))))));
  }

  lemma {:induction false} ParamListAlike(ps: seq<NodeParam>, qs: seq<NodeParam>, k: Text, l: Text)
    requires forall i :: 0 <= i < |ps| ==> WfParam(ps[i])
    requires forall i :: 0 <= i < |qs| ==> WfParam(qs[i])
    requires ParamsLike(ps, qs) && Alike(k, l)
    ensures Alike(FmtParamList(ps, k), FmtParamList(qs, l))
  {
    Unfold();
    hide Alike, FmtParam, WfParam, ParamLike;
    if |ps| == 1 {
      ParamAlike(ps[0], qs[0], k, l);
    } else if ps != [] {
      ParamListAlike(ps[1..], qs[1..], k, l);
      ParamAlike(ps[0], qs[0], T(Comma, W(" ", FmtParamList(ps[1..], k))), T(Comma, W(" ", FmtParamList(qs[1..], l))));
    }
  }

  lemma {:induction false} StructLinesAlike(ps: seq<Port>, qs: seq<Port>, k: Text, l: Text)
    requires WfPorts(ps) && WfPorts(qs) && PortsLike(ps, qs) && Alike(k, l)
    ensures Alike(FmtStructLines(ps, k), FmtStructLines(qs, l))
  {
    Unfold();
    hide Alike, FmtPort, WfPorts, PortsLike, TypeString;
    SameLength(ps, qs);
    if ps != [] {
      PortsTail(ps, qs);
      StructLinesAlike(ps[1..], qs[1..], k, l);
      PortAlike(ps[0], qs[0], T(Comma, NewLine(FmtStructLines(ps[1..], k))), T(Comma, NewLine(FmtStructLines(qs[1..], l))));
    }
  }

  lemma QNameAlike(q: QName, k: Text, l: Text)
    requires Alike(k, l)
    ensures Alike(FmtQName(q, k), FmtQName(q, l))
  {
    FormatAppend.QNameAppend(q, End, k);
    FormatAppend.QNameAppend(q, End, l);
    RenderAppend(FmtQName(q, End), k);
    RenderAppend(FmtQName(q, End), l);
    assert Append(End, k) == k && Append(End, l) == l;
  }

  lemma ForeignNodeAlike(n: ForeignNode, o: ForeignNode, k: Text, l: Text)
    requires WfForeignNode(n) && WfForeignNode(o) && ForeignNodeLike(n, o) && Alike(k, l)
    ensures Alike(FmtForeignNode(n, k), FmtForeignNode(o, l))
  {
    Unfold();
    hide Alike, FmtPorts, FmtPortOrList, FmtQName, WfPorts, PortsLike, WfQName;
    QNameAlike(n.symbol, k, l);
    var result, other := W(" ", T(Equal, W(" ", FmtQName(n.symbol, k)))), W(" ", T(Equal, W(" ", FmtQName(o.symbol, l))));
    PortOrListAlike(n.outputs, o.outputs, result, other);
    PortsAlike(n.inputs, o.inputs,
      T(RParen, W(" ", T(Arrow, W(" ", FmtPortOrList(n.outputs, result))))),
      T(RParen, W(" ", T(Arrow, W(" ", FmtPortOrList(o.outputs, other))))));
  }

  lemma {:induction false} ForeignLinesAlike(ns: seq<ForeignNode>, os: seq<ForeignNode>, k: Text)
    requires forall i :: 0 <= i < |ns| ==> WfForeignNode(ns[i])
    requires forall i :: 0 <= i < |os| ==> WfForeignNode(os[i])
    requires |ns| == |os| && forall i :: 0 <= i < |ns| ==> ForeignNodeLike(ns[i], os[i])
    ensures Alike(FmtForeignLines(ns, k), FmtForeignLines(os, k))
  {
    Unfold();
    if ns != [] {
      ForeignLinesAlike(ns[1..], os[1..], k);
      hide Alike, FmtForeignNode, WfForeignNode, ForeignNodeLike;
      ForeignNodeAlike(ns[0], os[0], NewLine(FmtForeignLines(ns[1..], k)), NewLine(FmtForeignLines(os[1..], k)));
    }
  }

  lemma ForeignHeadAlike(language: ForeignTarget, origin: ForeignSource, k: Text, l: Text)
    requires Alike(k, l)
    ensures Alike(FmtForeignHead(language, origin, k), FmtForeignHead(language, origin, l))
  {
    Unfold();
    hide Alike;
  }

  lemma HeaderAlike(kind: Text, c: Callable, d: Callable)
    requires WfCallable(c) && WfCallable(d) && CallableLike(c, d)
    ensures Alike(FmtHeader(kind, c, End), FmtHeader(kind, d, End))
  {
    Unfold();
    hide FmtPorts, FmtPortOrList, FmtParamList, WfPorts, PortsLike, WfParam, ParamLike, WfChain;
    var brace := W(" ", T(LBrace, NewLine(End)));
    var outputs, outputs2 := FmtPortOrList(c.outputs, brace), FmtPortOrList(d.outputs, brace);
    PortOrListAlike(c.outputs, d.outputs, brace, brace);
    var arrow, arrow2 := W(" ", T(Arrow, W(" ", outputs))), W(" ", T(Arrow, W(" ", outputs2)));
    assert Alike(arrow, arrow2) by { hide Alike; }
    PortsAlike(c.inputs, d.inputs, T(RParen, arrow), T(RParen, arrow2));
    var inputs, inputs2 := FmtInputs(c.inputs, arrow), FmtInputs(d.inputs, arrow2);
    assert Alike(inputs, inputs2) by { hide Alike; }
    ParamListAlike(c.nodeParams, d.nodeParams, T(Greater, inputs), T(Greater, inputs2));
    var rest, rest2 := W(" ", T(Ident(c.name), FmtParams(c.nodeParams, inputs))), W(" ", T(Ident(d.name), FmtParams(d.nodeParams, inputs2)));
    assert Alike(rest, rest2) by { hide Alike; }
    RenderAppend(kind, rest);
    RenderAppend(kind, rest2);
  }

  lemma AppendAlike(acc: Text, bcc: Text, t: Text, u: Text)
    requires Alike(acc, bcc) && Alike(t, u)
    ensures Alike(Append(acc, t), Append(bcc, u))
  {
    RenderAppend(acc, t);
    RenderAppend(bcc, u);
  }

  lemma BlankLineAlike(acc: Text, bcc: Text)
    requires Alike(acc, bcc)
    ensures Alike(BlankLine(acc), BlankLine(bcc))
  {
    AppendAlike(acc, bcc, NewLine(End), NewLine(End));
  }

  lemma FlushAlike(acc: Text, bcc: Text, group: seq<Row>)
    requires Alike(acc, bcc)
    ensures Alike(Flush(acc, group), Flush(bcc, group))
  {
    AppendAlike(acc, bcc, FmtGroup(group, group, End), FmtGroup(group, group, End));
  }

  lemma BreakAlike(acc: Text, bcc: Text, group: seq<Row>, i: nat, c: ChainComments)
    requires Alike(acc, bcc)
    ensures Alike(Break(acc, group, i, c), Break(bcc, group, i, c))
  {
    var remarks := Remarks(INDENT, c.leading);
    assert Alike(remarks, remarks);
    hide Alike, Flush, BlankLine, Remarks;
    FlushAlike(acc, bcc, group);
    BlankLineAlike(Flush(acc, group), Flush(bcc, group));
    var blank := c.blank && i > 0;
    AppendAlike(if blank then BlankLine(Flush(acc, group)) else Flush(acc, group),
      if blank then BlankLine(Flush(bcc, group)) else Flush(bcc, group), remarks, remarks);
  }

  lemma {:induction false} BodyAlike(acc: Text, bcc: Text, group: seq<Row>, chains: seq<Chain>, i: nat,
      comments: seq<ChainComments>)
    requires Alike(acc, bcc) && i <= |chains|
    ensures Alike(FmtBody(acc, group, chains, i, comments), FmtBody(bcc, group, chains, i, comments))
    decreases |chains| - i
  {
    FlushAlike(acc, bcc, group);
    if i < |chains| {
      var c := ChainAt(comments, i);
      var lines := FmtMultilineChain(chains[i], c.trailing, End);
      assert Alike(lines, lines);
      hide IsMultiline, Break, FmtMultilineChain, Flush, Alike, ChainAt;
      BreakAlike(acc, bcc, group, i, c);
      var acc1 := if Breaks(c) then Break(acc, group, i, c) else acc;
      var bcc1 := if Breaks(c) then Break(bcc, group, i, c) else bcc;
      var group1 := if Breaks(c) then [] else group;
      if IsMultiline(chains[i]) {
        FlushAlike(acc1, bcc1, group1);
        AppendAlike(Flush(acc1, group1), Flush(bcc1, group1), lines, lines);
        BodyAlike(Append(Flush(acc1, group1), lines), Append(Flush(bcc1, group1), lines), [], chains, i + 1, comments);
      } else {
        BodyAlike(acc1, bcc1, group1 + [Row(chains[i], c.trailing)], chains, i + 1, comments);
      }
    }
  }

  lemma CallableAlike(acc: Text, bcc: Text, kind: Text, c: Callable, d: Callable, comments: seq<ChainComments>)
    requires Alike(acc, bcc) && WfCallable(c) && WfCallable(d) && CallableLike(c, d)
    ensures Alike(FmtCallable(acc, kind, c, comments), FmtCallable(bcc, kind, d, comments))
  {
    HeaderAlike(kind, c, d);
    hide FmtHeader, FmtBody, WfCallable;
    var header, other := FmtHeader(kind, c, End), FmtHeader(kind, d, End);
    AppendAlike(acc, bcc, header, other);
    BodyAlike(Append(acc, header), Append(bcc, other), [], c.chains, 0, comments);
    var last := T(RBrace, NewLine(End));
    AppendAlike(FmtBody(Append(acc, header), [], c.chains, 0, comments), FmtBody(Append(bcc, other), [], c.chains, 0, comments), last, last);
  }

  lemma PlainDeclAlike(d: Decl, e: Decl)
    requires WfDecl(d) && WfDecl(e) && DeclLike(d, e) && !d.Node? && !d.Program?
    ensures Alike(FmtDecl(End, d, []), FmtDecl(End, e, []))
  {
    Unfold();
    hide FmtType, FmtStructLines, FmtForeignLines, FmtForeignHead, FmtImport, WfPorts, PortsLike, WfForeignNode,
         ForeignNodeLike, TypeString;
    match (d, e)
    case (TypeAlias(n, ty), TypeAlias(m, uy)) =>
      TypeAlike(ty, uy, NewLine(End), NewLine(End));
      hide Alike;
    case (StructDecl(n, ps), StructDecl(m, qs)) =>
      var last := T(RBrace, NewLine(End));
      StructLinesAlike(ps, qs, last, last);
      hide Alike;
    case (Foreign(l, o, ns), Foreign(_, _, ms)) =>
      var last := T(RBrace, NewLine(End));
      ForeignLinesAlike(ns, ms, last);
      var body, other := T(LBrace, NewLine(FmtForeignLines(ns, last))), T(LBrace, NewLine(FmtForeignLines(ms, last)));
      hide Alike;
      ForeignHeadAlike(l, o, W(" ", body), W(" ", other));
    case _ =>
  }

  lemma DeclAlike(acc: Text, bcc: Text, d: Decl, e: Decl, comments: seq<ChainComments>)
    requires Alike(acc, bcc) && WfDecl(d) && WfDecl(e) && DeclLike(d, e)
    ensures Alike(FmtDecl(acc, d, comments), FmtDecl(bcc, e, comments))
  {
    if d.Node? || d.Program? {
      var kind := if d.Program? then PROGRAM else if d.callable.isExtern then EXTERN_NODE else NODE;
      CallableAlike(acc, bcc, kind, d.callable, e.callable, comments);
    } else {
      PlainDeclAlike(d, e);
      hide FmtAlias, FmtStruct, FmtImport, FmtForeign, WfDecl, Alike;
      AppendAlike(acc, bcc, FmtDecl(End, d, []), FmtDecl(End, e, []));
    }
  }

  lemma BetweenAlike(acc: Text, bcc: Text, ds: seq<Decl>, es: seq<Decl>, i: nat, leading: seq<string>)
    requires Alike(acc, bcc) && i < |ds| == |es| && forall j :: 0 <= j < |ds| ==> DeclLike(ds[j], es[j])
    ensures Alike(Between(acc, ds, i, leading), Between(bcc, es, i, leading))
  {
    var remarks := Remarks("", leading);
    assert Alike(remarks, remarks);
    hide Alike, BlankLine, Remarks;
    BlankLineAlike(acc, bcc);
    var blank := i > 0 && NeedsBlankBetween(ds[i - 1], ds[i]);
    AppendAlike(if blank then BlankLine(acc) else acc, if blank then BlankLine(bcc) else bcc, remarks, remarks);
  }

  lemma BothDeclsAlike(acc: Text, bcc: Text, ds: seq<Decl>, es: seq<Decl>, i: nat, c: DeclComments)
    requires Alike(acc, bcc) && i < |ds| == |es|
    requires forall j :: 0 <= j < |ds| ==> WfDecl(ds[j]) && WfDecl(es[j]) && DeclLike(ds[j], es[j])
    ensures
      Alike(FmtDecl(Between(acc, ds, i, c.leading), ds[i], c.chains), FmtDecl(Between(bcc, es, i, c.leading), es[i], c.chains))
  {
    hide Alike, FmtDecl, WfDecl, DeclLike, Between;
    BetweenAlike(acc, bcc, ds, es, i, c.leading);
    DeclAlike(Between(acc, ds, i, c.leading), Between(bcc, es, i, c.leading), ds[i], es[i], c.chains);
  }

  lemma {:induction false} DeclsAlike(acc: Text, bcc: Text, ds: seq<Decl>, es: seq<Decl>, i: nat, layout: Layout)
    requires Alike(acc, bcc) && i <= |ds| == |es|
    requires forall j :: 0 <= j < |ds| ==> WfDecl(ds[j]) && WfDecl(es[j]) && DeclLike(ds[j], es[j])
    ensures Alike(FmtDecls(acc, ds, i, layout), FmtDecls(bcc, es, i, layout))
    decreases |ds| - i
  {
    if i < |ds| {
      var c := DeclAt(layout, i);
      hide Alike, FmtDecl, WfDecl, DeclLike, Between, DeclAt;
      var acc1 := FmtDecl(Between(acc, ds, i, c.leading), ds[i], c.chains);
      var bcc1 := FmtDecl(Between(bcc, es, i, c.leading), es[i], c.chains);
      BothDeclsAlike(acc, bcc, ds, es, i, c);
      DeclsAlike(acc1, bcc1, ds, es, i + 1, layout);
    }
  }

  /** Trees that are the same up to the tokens of their annotations are printed alike. */
  lemma LikeModulesPrintAlike(m: Module, n: Module, layout: Layout)
    requires WfModule(m) && WfModule(n) && ModuleLike(m, n)
    ensures Render(FmtModule(m, layout)) == Render(FmtModule(n, layout))
  {
    hide WfDecl, DeclLike;
    DeclsAlike(End, End, m.declarations, n.declarations, 0, layout);
    RenderAppend(FmtDecls(End, m.declarations, 0, layout), NewLine(End));
    RenderAppend(FmtDecls(End, n.declarations, 0, layout), NewLine(End));
  }

  // ---- Annotations that are read back ----

  /**
   * What is read when an annotation is printed at the end of a line: the tokens, if they are all read and joined the
   * same.
   */
  function Reread(text: string): Option<TypeText>
  {
    match Lexer.Lex(TypeName("", text) + "\n")
    case NoTokens => None
    case SomeTokens(ts) =>
      var r := ParseType(ListOf(ts));
      if r.Ok? && r.rest == Nil && TypeString(r.value) == text then Some(r.value) else None
  }

  /** An annotation with this text is read back with this text once it is printed. */
  predicate Readable(text: string) { Reread(text).Some? }

  lemma TypeLine(ty: TypeText)
    requires WfType(ty)
    ensures Render(FmtType(ty, NewLine(End))) == TypeName("", TypeString(ty)) + "\n"
    ensures Laid(false, FmtType(ty, NewLine(End))) && TokensOf(FmtType(ty, NewLine(End)), Nil) == TkType(ty, Nil)
  {
    TypeText(ty, NewLine(End));
    assert Render(NewLine(End)) == "\n";
    NewLineWhole(false);
    TypeSafe(false, ty, NewLine(End));
    FormatTokens.Unfold();
    FormatTokens.TypeTokens(ty, NewLine(End), Nil);
  }

  /** Tokens that stay apart are read back, as they are. */
  lemma ApartIsReread(ty: TypeText)
    requires WfType(ty) && Apart(ty)
    ensures Reread(TypeString(ty)) == Some(ty)
  {
    var t := FmtType(ty, NewLine(End));
    TypeLine(ty);
    NewLineWhole(true);
    TypeSafe(true, ty, NewLine(End));
    RenderedLexes(t);
    RoundTrip.TypeParsed(ty, Nil);
    hide FmtType, TypeName, TypeString, Lexer.Lex, ParseType, TkType;
  }

  /** And what is read back stays apart. */
  lemma RereadIsApart(text: string)
    requires Readable(text)
    ensures var ty := Reread(text).value; WfType(ty) && Apart(ty) && TypeString(ty) == text
  {
    var s := TypeName("", text) + "\n";
    var ts := Lexer.Lex(s).tokens;
    Lexer.LexedIsLexable(s);
    LexedIsClean(ts);
    TypeResult(ListOf(ts));
    var ty := Reread(text).value;
    TypeLine(ty);
    var t := FmtType(ty, NewLine(End));
    hide FmtType, TypeName, TypeString, Lexer.Lex, ParseType, TkType;
    if Safe(t) {
      FormatLimits.TypeStays(ty, NewLine(End));
    } else {
      Merging.MergedTokensAreLost(t);
      ParserWeights.TypeTakes(ListOf(ts));
      ParserWeights.TypeCount(ty, Nil);
    }
  }

  // ---- Trees whose annotations are read back ----

  predicate PortsReadable(ps: seq<Port>) { forall i :: 0 <= i < |ps| ==> Readable(TypeString(ps[i].ty)) }

  predicate ParamsReadable(ps: seq<NodeParam>)
  {
    forall i :: 0 <= i < |ps| ==> Readable(TypeString(ps[i].input)) && Readable(TypeString(ps[i].output))
  }

  predicate ForeignReadable(ns: seq<ForeignNode>)
  {
    forall i :: 0 <= i < |ns| ==> PortsReadable(ns[i].inputs) && PortsReadable(ns[i].outputs)
  }

  predicate CallableReadable(c: Callable)
  {
    PortsReadable(c.inputs) && PortsReadable(c.outputs) && ParamsReadable(c.nodeParams)
  }

  predicate DeclReadable(d: Decl)
  {
    match d
    case TypeAlias(_, ty) => Readable(TypeString(ty))
    case StructDecl(_, fields) => PortsReadable(fields)
    case Import(_, _) => true
    case Foreign(_, _, nodes) => ForeignReadable(nodes)
    case Node(c) => CallableReadable(c)
    case Program(c) => CallableReadable(c)
  }

  /** Every annotation of the module is read back with the same text once it is printed. */
  predicate ModuleReadable(m: Module)
  {
    forall i :: 0 <= i < |m.declarations| ==> DeclReadable(m.declarations[i])
  }

  function TypeAgain(ty: TypeText): TypeText
  {
    match Reread(TypeString(ty))
    case None => ty
    case Some(uy) => uy
  }

  lemma TypeAgainIs(ty: TypeText)
    requires Readable(TypeString(ty))
    ensures WfType(TypeAgain(ty)) && Apart(TypeAgain(ty)) && TypeString(TypeAgain(ty)) == TypeString(ty)
  {
    hide Reread, WfType, Apart, TypeString;
    RereadIsApart(TypeString(ty));
  }

  function PortsAgain(ps: seq<Port>): seq<Port>
  {
    seq(|ps|, i requires 0 <= i < |ps| => Port(ps[i].name, TypeAgain(ps[i].ty)))
  }

  function ParamsAgain(ps: seq<NodeParam>): seq<NodeParam>
  {
    seq(|ps|, i requires 0 <= i < |ps| => NodeParam(ps[i].name, TypeAgain(ps[i].input), TypeAgain(ps[i].output)))
  }

  function NodesAgain(ns: seq<ForeignNode>): seq<ForeignNode>
  {
    seq(|ns|, i requires 0 <= i < |ns| => ns[i].(inputs := PortsAgain(ns[i].inputs), outputs := PortsAgain(ns[i].outputs)))
  }

  function CallableAgain(c: Callable): Callable
  {
    c.(nodeParams := ParamsAgain(c.nodeParams), inputs := PortsAgain(c.inputs), outputs := PortsAgain(c.outputs))
  }

  /** The declaration as it is read from its printed form. */
  function DeclAgain(d: Decl): Decl
  {
    match d
    case TypeAlias(n, ty) => TypeAlias(n, TypeAgain(ty))
    case StructDecl(n, fields) => StructDecl(n, PortsAgain(fields))
    case Import(_, _) => d
    case Foreign(language, origin, nodes) => Foreign(language, origin, NodesAgain(nodes))
    case Node(c) => Node(CallableAgain(c))
    case Program(c) => Program(CallableAgain(c))
  }

  function ModuleAgain(m: Module): Module
  {
    Module(seq(|m.declarations|, i requires 0 <= i < |m.declarations| => DeclAgain(m.declarations[i])))
  }

  lemma PortsAgainAre(ps: seq<Port>)
    requires WfPorts(ps) && PortsReadable(ps)
    ensures WfPorts(PortsAgain(ps)) && PortsApart(PortsAgain(ps)) && PortsLike(PortsAgain(ps), ps)
  {
    hide WfType, Apart, TypeString, Readable, TypeAgain;
    forall i | 0 <= i < |ps|
      ensures var ty := TypeAgain(ps[i].ty); WfType(ty) && Apart(ty) && TypeString(ty) == TypeString(ps[i].ty)
    {
      TypeAgainIs(ps[i].ty);
    }
  }

  lemma ParamsAgainAre(ps: seq<NodeParam>)
    requires (forall i :: 0 <= i < |ps| ==> WfParam(ps[i])) && ParamsReadable(ps)
    ensures var qs := ParamsAgain(ps); ParamsLike(qs, ps) && forall i :: 0 <= i < |qs| ==>
              WfParam(qs[i]) && Apart(qs[i].input) && Apart(qs[i].output)
  {
    hide WfType, Apart, TypeString, Readable, TypeAgain;
    forall i | 0 <= i < |ps|
      ensures var q := ParamsAgain(ps)[i]; ParamLike(q, ps[i]) && WfParam(q) && Apart(q.input) && Apart(q.output)
    {
      TypeAgainIs(ps[i].input);
      TypeAgainIs(ps[i].output);
    }
  }

  lemma CallableAgainIs(c: Callable)
    requires WfCallable(c) && CallableReadable(c)
    ensures WfCallable(CallableAgain(c)) && CallableApart(CallableAgain(c)) && CallableLike(CallableAgain(c), c)
  {
    PortsAgainAre(c.inputs);
    PortsAgainAre(c.outputs);
    ParamsAgainAre(c.nodeParams);
    hide WfPorts, PortsApart, PortsLike, PortsReadable, ParamsReadable, WfParam, Apart, WfChain, ParamsLike;
    SameLength(PortsAgain(c.outputs), c.outputs);
  }

  lemma NodesAgainAre(ns: seq<ForeignNode>)
    requires (forall i :: 0 <= i < |ns| ==> WfForeignNode(ns[i])) && ForeignReadable(ns)
    ensures
      var os := NodesAgain(ns);
      && |os| == |ns|
      && forall i :: 0 <= i < |os| ==>
           WfForeignNode(os[i]) && PortsApart(os[i].inputs) && PortsApart(os[i].outputs) && ForeignNodeLike(os[i], ns[i])
  {
    hide WfPorts, PortsApart, PortsLike, PortsReadable;
    var os := NodesAgain(ns);
    forall i | 0 <= i < |ns|
      ensures WfForeignNode(os[i]) && PortsApart(os[i].inputs) && PortsApart(os[i].outputs) && ForeignNodeLike(os[i], ns[i])
    {
      PortsAgainAre(ns[i].inputs);
      PortsAgainAre(ns[i].outputs);
    }
  }

  lemma DeclAgainIs(d: Decl)
    requires WfDecl(d) && DeclReadable(d)
    ensures WfDecl(DeclAgain(d)) && DeclApart(DeclAgain(d)) && DeclLike(DeclAgain(d), d)
  {
    hide WfPorts, PortsApart, PortsLike, PortsReadable, WfForeignNode, ForeignNodeLike, ForeignReadable, WfType, Apart,
         Readable, TypeString, TypeAgain, PortsAgain, NodesAgain, WfCallable, CallableApart, CallableLike,
         CallableAgain, CallableReadable;
    match d
    case TypeAlias(_, ty) => TypeAgainIs(ty);
    case StructDecl(_, fields) =>
      PortsAgainAre(fields);
      SameLength(PortsAgain(fields), fields);
    case Import(_, _) =>
    case Foreign(_, _, nodes) => NodesAgainAre(nodes);
    case Node(c) => CallableAgainIs(c);
    case Program(c) =>
      CallableAgainIs(c);
      assert CallableAgain(c).isExtern == c.isExtern by { SameKind(c); }
  }

  lemma SameKind(c: Callable)
    ensures CallableAgain(c).isExtern == c.isExtern
  {}

  lemma ModuleAgainIs(m: Module)
    requires WfModule(m) && ModuleReadable(m)
    ensures WfModule(ModuleAgain(m)) && ModuleApart(ModuleAgain(m)) && ModuleLike(ModuleAgain(m), m)
  {
    hide WfDecl, DeclApart, DeclLike, DeclReadable, DeclAgain;
    forall i | 0 <= i < |m.declarations|
      ensures var e := DeclAgain(m.declarations[i]); WfDecl(e) && DeclApart(e) && DeclLike(e, m.declarations[i])
    {
      DeclAgainIs(m.declarations[i]);
    }
  }

  // ---- And the other way round ----

  lemma PortsAreReadable(ps: seq<Port>, qs: seq<Port>)
    requires WfPorts(ps) && PortsApart(ps) && PortsLike(ps, qs)
    ensures PortsReadable(qs)
  {
    hide WfType, Apart, TypeString, Reread;
    forall i | 0 <= i < |qs| ensures Readable(TypeString(qs[i].ty)) { ApartIsReread(ps[i].ty); }
  }

  lemma CallableIsReadable(c: Callable, d: Callable)
    requires WfCallable(c) && CallableApart(c) && CallableLike(c, d)
    ensures CallableReadable(d)
  {
    PortsAreReadable(c.inputs, d.inputs);
    PortsAreReadable(c.outputs, d.outputs);
    hide WfType, Apart, TypeString, Reread, WfPorts, PortsApart, PortsLike, PortsReadable, WfChain;
    forall i | 0 <= i < |d.nodeParams|
      ensures Readable(TypeString(d.nodeParams[i].input)) && Readable(TypeString(d.nodeParams[i].output))
    {
      ApartIsReread(c.nodeParams[i].input);
      ApartIsReread(c.nodeParams[i].output);
    }
  }

  lemma DeclIsReadable(d: Decl, e: Decl)
    requires WfDecl(d) && DeclApart(d) && DeclLike(d, e)
    ensures DeclReadable(e)
  {
    hide WfType, Apart, TypeString, Reread, WfPorts, PortsApart, PortsLike, PortsReadable, WfCallable, CallableApart,
         CallableLike, CallableReadable;
    match (d, e)
    case (TypeAlias(_, ty), TypeAlias(_, _)) => ApartIsReread(ty);
    case (StructDecl(_, ps), StructDecl(_, qs)) => PortsAreReadable(ps, qs);
    case (Import(_, _), Import(_, _)) =>
    case (Foreign(_, _, ns), Foreign(_, _, os)) =>
      forall i | 0 <= i < |os| ensures PortsReadable(os[i].inputs) && PortsReadable(os[i].outputs) {
        PortsAreReadable(ns[i].inputs, os[i].inputs);
        PortsAreReadable(ns[i].outputs, os[i].outputs);
      }
    case (Node(c), Node(b)) => CallableIsReadable(c, b);
    case (Program(c), Program(b)) => CallableIsReadable(c, b);
  }

  lemma ModuleIsReadable(m: Module, n: Module)
    requires WfModule(m) && ModuleApart(m) && ModuleLike(m, n)
    ensures ModuleReadable(n)
  {
    hide WfDecl, DeclApart, DeclLike, DeclReadable;
    forall i | 0 <= i < |n.declarations| ensures DeclReadable(n.declarations[i]) {
      DeclIsReadable(m.declarations[i], n.declarations[i]);
    }
  }

  // ---- Main results ----

  /** A printed module is read back with the same annotation texts if each of them is read back alone. */
  lemma ReadableModuleParses(m: Module, layout: Layout)
    requires WfModule(m) && ModuleReadable(m) && LayoutSkips(layout)
    ensures Parse(Render(FmtModule(m, layout))) == Some(ModuleAgain(m))
  {
    ModuleAgainIs(m);
    hide FmtModule, Parse, WfModule, ModuleApart, ModuleLike, ModuleAgain, ModuleReadable, LayoutSkips;
    LikeModulesPrintAlike(ModuleAgain(m), m, layout);
    PrintedModuleParses(ModuleAgain(m), layout);
  }

  lemma ReadBackIsReadable(m: Module, n: Module, layout: Layout)
    requires WfModule(m) && Parse(Render(FmtModule(m, layout))) == Some(n) && ModuleLike(n, m) && LayoutSkips(layout)
    ensures ModuleReadable(m)
  {
    ParsedIsWellFormed(Render(FmtModule(m, layout)));
    hide FmtModule, Parse, WfModule, ModuleApart, ModuleLike, ModuleReadable, LayoutSkips;
    LikeModulesPrintAlike(n, m, layout);
    if !ModuleApart(n) { FormatLimits.MergedModuleIsLost(n, layout); }
    ModuleIsReadable(n, m);
  }

  /**
   * What the program keeps of a module is read back from its printed text, whose comments are skipped, exactly when
   * each annotation, printed alone, is read back with its text.
   */
  lemma PrintedTextsParseIff(m: Module, layout: Layout)
    requires WfModule(m) && LayoutSkips(layout)
    ensures
      var again := Parse(Render(FmtModule(m, layout)));
      (again.Some? && ModuleLike(again.value, m)) <==> ModuleReadable(m)
  {
    var again := Parse(Render(FmtModule(m, layout)));
    hide FmtModule, Parse, WfModule, ModuleLike, ModuleReadable, ModuleAgain, LayoutSkips;
    if ModuleReadable(m) {
      ReadableModuleParses(m, layout);
      ModuleAgainIs(m);
    }
    if again.Some? && ModuleLike(again.value, m) { ReadBackIsReadable(m, again.value, layout); }
  }

  /** Words run into each other may be another word: an annotation of two names that make up a third one is read back. */
  lemma SplitNamesAreReadable(a: string, b: string)
    requires IsIdent(a) && IsIdent(b) && IsIdent(a + b)
    ensures Readable(TypeString([Ident(a), Ident(b)])) && !Apart([Ident(a), Ident(b)])
  {
    var ty, uy := [Ident(a), Ident(b)], [Ident(a + b)];
    assert ty[1..] == [Ident(b)] && [Ident(b)][1..] == [] && uy[1..] == [];
    assert TypeString(ty) == a + TypeString([Ident(b)]) && TypeString([Ident(b)]) == b + [];
    assert TypeString(uy) == (a + b) + [] == TypeString(ty);
    assert WfType(uy);
    ApartIsReread(uy);
    assert Joins(ty[0], ty[1]);
  }
}
