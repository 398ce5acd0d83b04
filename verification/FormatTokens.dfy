/** The formatted text of a tree has the tokens meant for it, in every layout. */
module FormatTokens {
  import opened Tokens
  import opened Ast
  import opened Parsing
  import opened WellFormed
  import opened Rendering
  import opened Comments
  import opened Formatting

  /** Lets the verifier read off the tokens of a text as far as it is spelled out. */
  lemma Unfold()
    ensures forall token, rest, z :: TokensOf(T(token, rest), z) == Cons(token, TokensOf(rest, z))
    ensures forall blank, rest, z :: TokensOf(W(blank, rest), z) == TokensOf(rest, z)
    ensures forall z :: TokensOf(End, z) == z
  {
  }

  // ---- Names and types ----

  lemma {:induction false} SegmentsTokens(q: QName, k: Text, z: List)
    ensures TokensOf(FmtSegments(q, k), z) == TkSegments(q, TokensOf(k, z))
  {
    Unfold();
    if q != [] {
      SegmentsTokens(q[1..], k, z);
    }
  }

  lemma QNameTokens(q: QName, k: Text, z: List)
    ensures TokensOf(FmtQName(q, k), z) == TkQName(q, TokensOf(k, z))
  {
    Unfold();
    if q != [] {
      SegmentsTokens(q[1..], k, z);
    }
  }

  lemma {:induction false} ArgsTokens(args: seq<QName>, k: Text, z: List)
    ensures TokensOf(FmtArgs(args, k), z) == TkArgs(args, TokensOf(k, z))
  {
    Unfold();
    if |args| == 1 {
      QNameTokens(args[0], k, z);
    } else if args != [] {
      ArgsTokens(args[1..], k, z);
      QNameTokens(args[0], T(Comma, FmtArgs(args[1..], k)), z);
    }
  }

  lemma RefTokens(r: NodeRef, k: Text, z: List)
    ensures TokensOf(FmtRef(r, k), z) == TkRef(r, TokensOf(k, z))
  {
    Unfold();
    if r.args == [] {
      QNameTokens(r.base, k, z);
    } else {
      ArgsTokens(r.args, T(Greater, k), z);
      QNameTokens(r.base, T(Less, FmtArgs(r.args, T(Greater, k))), z);
    }
  }

  lemma {:induction false} TypeTailTokens(ty: TypeText, k: Text, z: List)
    ensures TokensOf(FmtTypeTail(ty, k), z) == TkType(ty, TokensOf(k, z))
  {
    Unfold();
    if ty != [] {
      TypeTailTokens(ty[1..], k, z);
    }
  }

  lemma TypeTokens(ty: TypeText, k: Text, z: List)
    ensures TokensOf(FmtType(ty, k), z) == TkType(ty, TokensOf(k, z))
  {
    Unfold();
    TypeTailTokens(ty, k, z);
  }

  // ---- Endpoints, stages and arms ----

  lemma {:induction false} EndpointTokens(e: Endpoint, k: Text, z: List)
    ensures TokensOf(FmtEndpoint(e, k), z) == TkEndpoint(e, TokensOf(k, z))
    decreases e, 0
  {
    Unfold();
    match e
    case Name(r) => RefTokens(r, k, z);
    case Tuple(items) => ItemsTokens(items, T(RParen, k), z);
    case Seq(items) => ItemsTokens(items, T(RBracket, k), z);
    case Struct(n, fields) => FieldsTokens(fields, W(" ", T(RBrace, k)), z);
    case Eval(source, stages) =>
      EndpointTokens(source, FmtStages(stages, k), z);
      StagesTokens(stages, k, z);
    case _ =>
  }

  lemma {:induction false} ItemsTokens(items: seq<Endpoint>, k: Text, z: List)
    ensures TokensOf(FmtItems(items, k), z) == TkItems(items, TokensOf(k, z))
    decreases items
  {
    Unfold();
    if |items| == 1 {
      EndpointTokens(items[0], k, z);
    } else if items != [] {
      ItemsTokens(items[1..], k, z);
      EndpointTokens(items[0], T(Comma, W(" ", FmtItems(items[1..], k))), z);
    }
  }

  lemma {:induction false} FieldsTokens(fields: seq<Field>, k: Text, z: List)
    ensures TokensOf(FmtFields(fields, k), z) == TkFields(fields, TokensOf(k, z))
    decreases fields
  {
    Unfold();
    if |fields| == 1 {
      EndpointTokens(fields[0].value, k, z);
    } else if fields != [] {
      FieldsTokens(fields[1..], k, z);
      EndpointTokens(fields[0].value, T(Comma, W(" ", FmtFields(fields[1..], k))), z);
    }
  }

  lemma {:induction false} StagesTokens(stages: seq<Stage>, k: Text, z: List)
    ensures TokensOf(FmtStages(stages, k), z) == TkStages(stages, TokensOf(k, z))
    decreases stages
  {
    Unfold();
    if stages != [] {
      StagesTokens(stages[1..], k, z);
      StageTokens(stages[0], FmtStages(stages[1..], k), z);
    }
  }

  lemma {:induction false} StageTokens(s: Stage, k: Text, z: List)
    ensures TokensOf(FmtStage(s, k), z) == TkStage(s, TokensOf(k, z))
    decreases s, 0
  {
    Unfold();
    match s
    case Value(e) => EndpointTokens(e, k, z);
    case Bind(t) => TargetTokens(t, k, z);
    case Map(r) => RefTokens(r, k, z);
    case FaultMap(r, ok, fault) => FaultMapTokens(r, ok, fault, k, z);
    case Filter(r) => RefTokens(r, k, z);
    case FieldOf(n) =>
    case Repeat(count, r) =>
      RefTokens(r, k, z);
      EndpointTokens(count, T(Greater, W(" ", FmtRef(r, k))), z);
    case Reduce(r, identity) =>
      RefTokens(r, FmtIdentity(identity, k), z);
      IdentityTokens(identity, k, z);
    case Scan(r, identity) =>
      RefTokens(r, FmtIdentity(identity, k), z);
      IdentityTokens(identity, k, z);
    case Match(arms) => ArmsTokens(arms, W(" ", T(RBrace, k)), z);
  }

  lemma FaultMapTokens(r: NodeRef, ok: string, fault: string, k: Text, z: List)
    ensures TokensOf(FmtFaultMap(r, ok, fault, k), z) == TkFaultMap(r, ok, fault, TokensOf(k, z))
  {
    Unfold();
    var faultPart := T(Ident("fault"), W(" ", T(Arrow, W(" ", T(Token.Variable(fault), W(" ", T(RBrace, k)))))));
    var okPart := T(Ident("ok"), W(" ", T(Arrow, W(" ", T(Token.Variable(ok), T(Comma, W(" ", faultPart)))))));
    RefTokens(r, W(" ", T(LBrace, W(" ", okPart))), z);
  }

  lemma {:induction false} IdentityTokens(identity: Endpoint, k: Text, z: List)
    ensures TokensOf(FmtIdentity(identity, k), z) == TkIdentity(identity, TokensOf(k, z))
    decreases identity, 1
  {
    Unfold();
    EndpointTokens(identity, T(RParen, k), z);
  }

  lemma {:induction false} TargetTokens(t: BindingTarget, k: Text, z: List)
    ensures TokensOf(FmtTarget(t, k), z) == TkTarget(t, TokensOf(k, z))
    decreases t
  {
    Unfold();
    if t.Both? {
      TargetsTokens(t.items, T(RParen, k), z);
    }
  }

  lemma {:induction false} TargetsTokens(items: seq<BindingTarget>, k: Text, z: List)
    ensures TokensOf(FmtTargets(items, k), z) == TkTargets(items, TokensOf(k, z))
    decreases items
  {
    Unfold();
    if |items| == 1 {
      TargetTokens(items[0], k, z);
    } else if items != [] {
      TargetsTokens(items[1..], k, z);
      TargetTokens(items[0], T(Comma, W(" ", FmtTargets(items[1..], k))), z);
    }
  }

  lemma {:induction false} ArmsTokens(arms: seq<MatchArm>, k: Text, z: List)
    ensures TokensOf(FmtArms(arms, k), z) == TkArms(arms, TokensOf(k, z))
    decreases arms
  {
    Unfold();
    if |arms| == 1 {
      ArmTokens(arms[0], k, z);
      assert TkArms(arms[1..], TokensOf(k, z)) == TokensOf(k, z);
    } else if arms != [] {
      ArmsTokens(arms[1..], k, z);
      ArmTokens(arms[0], W(" ", FmtArms(arms[1..], k)), z);
    }
  }

  lemma {:induction false} ArmTokens(arm: MatchArm, k: Text, z: List)
    ensures TokensOf(FmtArm(arm, k), z) == TkArm(arm, TokensOf(k, z))
    decreases arm, 1
  {
    Unfold();
    match arm.target {
      case ToNode(r) => RefTokens(r, k, z);
      case ToValue(e) => EndpointTokens(e, k, z);
    }
    var after := W(" ", T(Arrow, W(" ", FmtMatchTarget(arm.target, k))));
    match arm.guard {
      case Fallback =>
      case Call(r, args) =>
        ItemsTokens(args, T(RParen, after), z);
        RefTokens(r, T(LParen, FmtItems(args, T(RParen, after))), z);
    }
  }

  // ---- Ports and parameters ----

  lemma PortTokens(p: Port, k: Text, z: List)
    ensures TokensOf(FmtPort(p, k), z) == TkPort(p, TokensOf(k, z))
  {
    Unfold();
    TypeTokens(p.ty, k, z);
  }

  lemma {:induction false} PortsTokens(ps: seq<Port>, k: Text, z: List)
    ensures TokensOf(FmtPorts(ps, k), z) == TkPorts(ps, TokensOf(k, z))
  {
    Unfold();
    hide FmtPort, TkPort;
    if |ps| == 1 {
      PortTokens(ps[0], k, z);
    } else if ps != [] {
      PortsTokens(ps[1..], k, z);
      PortTokens(ps[0], T(Comma, W(" ", FmtPorts(ps[1..], k))), z);
    }
  }

  lemma PortOrListTokens(ps: seq<Port>, k: Text, z: List)
    ensures TokensOf(FmtPortOrList(ps, k), z) == TkPortOrList(ps, TokensOf(k, z))
  {
    Unfold();
    hide FmtPort, TkPort;
    if |ps| == 1 {
      PortTokens(ps[0], k, z);
    } else {
      PortsTokens(ps, T(RParen, k), z);
    }
  }

  lemma InputsTokens(ps: seq<Port>, k: Text, z: List)
    ensures TokensOf(FmtInputs(ps, k), z) == TkInputs(ps, TokensOf(k, z))
  {
    Unfold();
    PortsTokens(ps, T(RParen, k), z);
  }

  lemma ParamTokens(p: NodeParam, k: Text, z: List)
    ensures TokensOf(FmtParam(p, k), z) == TkParam(p, TokensOf(k, z))
  {
    Unfold();
    TypeTokens(p.output, k, z);
    TypeTokens(p.input, T(RParen, W(" ", T(Arrow, W(" ", FmtType(p.output, k))))), z);
  }

  lemma {:induction false} ParamListTokens(ps: seq<NodeParam>, k: Text, z: List)
    ensures TokensOf(FmtParamList(ps, k), z) == TkParamList(ps, TokensOf(k, z))
  {
    Unfold();
    hide FmtParam, TkParam;
    if |ps| == 1 {
      ParamTokens(ps[0], k, z);
    } else if ps != [] {
      ParamListTokens(ps[1..], k, z);
      ParamTokens(ps[0], T(Comma, W(" ", FmtParamList(ps[1..], k))), z);
    }
  }

  // ---- Declarations without chains ----

  lemma {:induction false} StructLinesTokens(ps: seq<Port>, k: Text, z: List)
    ensures TokensOf(FmtStructLines(ps, k), z) == TkStructPorts(ps, TokensOf(k, z))
  {
    Unfold();
    hide FmtPort, TkPort;
    if ps != [] {
      StructLinesTokens(ps[1..], k, z);
      PortTokens(ps[0], T(Comma, NewLine(FmtStructLines(ps[1..], k))), z);
    }
  }

  lemma {:induction false} ImportItemsTokens(items: seq<ImportItem>, k: Text, z: List)
    ensures TokensOf(FmtImportItems(items, k), z) == TkImportItems(items, false, TokensOf(k, z))
  {
    Unfold();
    if |items| > 1 {
      ImportItemsTokens(items[1..], k, z);
    }
  }

  lemma {:induction false} ImportLinesTokens(items: seq<ImportItem>, k: Text, z: List)
    ensures TokensOf(FmtImportLines(items, k), z) == TkImportItems(items, true, TokensOf(k, z))
  {
    Unfold();
    if items != [] {
      ImportLinesTokens(items[1..], k, z);
    }
  }

  /** Whether a declaration is an import written over several lines. */
  predicate HasLastComma(d: Decl)
  {
    d.Import? && d.clause.Items? && !FitsLine(d.source, d.clause.items)
  }

  lemma SourceTokens(s: ImportSource, k: Text, z: List)
    ensures TokensOf(FmtSource(s, k), z) == TkSource(s, TokensOf(k, z))
  {
    Unfold();
    if s.FromModule? {
      QNameTokens(s.path, k, z);
    }
  }

  lemma ImportTokens(source: ImportSource, clause: ImportClause, z: List)
    ensures
      var d := Import(source, clause);
      TokensOf(FmtImport(source, clause, End), z) == TkDecl(d, HasLastComma(d), z)
  {
    Unfold();
    match clause
    case As(alias) => SourceTokens(source, W(" ", T(Ident("as"), W(" ", T(Ident(alias), NewLine(End))))), z);
    case Items(items) =>
      if FitsLine(source, items) {
        ImportItemsTokens(items, W(" ", T(RBrace, NewLine(End))), z);
        SourceTokens(source, W(" ", T(LBrace, W(" ", FmtImportItems(items, W(" ", T(RBrace, NewLine(End))))))), z);
      } else {
        ImportLinesTokens(items, T(RBrace, NewLine(End)), z);
        SourceTokens(source, W(" ", T(LBrace, NewLine(FmtImportLines(items, T(RBrace, NewLine(End)))))), z);
      }
  }

  lemma ForeignNodeTokens(n: ForeignNode, k: Text, z: List)
    ensures TokensOf(FmtForeignNode(n, k), z) == TkForeignNode(n, TokensOf(k, z))
  {
    Unfold();
    hide FmtInputs, TkInputs, FmtPortOrList, TkPortOrList, FmtQName, TkQName;
    var result := W(" ", T(Equal, W(" ", FmtQName(n.symbol, k))));
    QNameTokens(n.symbol, k, z);
    PortOrListTokens(n.outputs, result, z);
    InputsTokens(n.inputs, W(" ", T(Arrow, W(" ", FmtPortOrList(n.outputs, result)))), z);
  }

  lemma {:induction false} ForeignLinesTokens(ns: seq<ForeignNode>, k: Text, z: List)
    ensures TokensOf(FmtForeignLines(ns, k), z) == TkForeignNodes(ns, TokensOf(k, z))
  {
    Unfold();
    hide FmtForeignNode, TkForeignNode;
    if ns != [] {
      ForeignLinesTokens(ns[1..], k, z);
      ForeignNodeTokens(ns[0], NewLine(FmtForeignLines(ns[1..], k)), z);
    }
  }

  lemma ForeignTokens(language: ForeignTarget, origin: ForeignSource, nodes: seq<ForeignNode>, z: List)
    ensures
      TokensOf(FmtForeign(language, origin, nodes, End), z) == TkDecl(Foreign(language, origin, nodes), false, z)
  {
    Unfold();
    ForeignLinesTokens(nodes, T(RBrace, NewLine(End)), z);
  }

  // ---- Chains ----

  lemma {:induction false} ArmLinesTokens(arms: seq<MatchArm>, k: Text, z: List)
    ensures TokensOf(FmtArmLines(arms, k), z) == TkArms(arms, TokensOf(k, z))
  {
    Unfold();
    hide FmtArm, TkArm;
    if arms != [] {
      ArmLinesTokens(arms[1..], k, z);
      ArmTokens(arms[0], NewLine(FmtArmLines(arms[1..], k)), z);
    }
  }

  lemma {:induction false} StageLinesTokens(stages: seq<Stage>, k: Text, z: List)
    ensures TokensOf(FmtStageLines(stages, k), z) == TkStages(stages, TokensOf(k, z))
  {
    Unfold();
    if stages != [] {
      StageLinesTokens(stages[1..], k, z);
      var more := FmtStageLines(stages[1..], k);
      match stages[0]
      case Match(arms) => ArmLinesTokens(arms, W(INDENT, T(RBrace, NewLine(more))), z);
      case _ => StageTokens(stages[0], NewLine(more), z);
    }
  }

  lemma {:induction false} FieldLinesTokens(fields: seq<Field>, k: Text, z: List)
    ensures TokensOf(FmtFieldLines(fields, k), z) == TkFields(fields, TokensOf(k, z))
  {
    Unfold();
    hide FmtEndpoint, TkEndpoint;
    if |fields| == 1 {
      EndpointTokens(fields[0].value, NewLine(k), z);
    } else if fields != [] {
      FieldLinesTokens(fields[1..], k, z);
      EndpointTokens(fields[0].value, T(Comma, NewLine(FmtFieldLines(fields[1..], k))), z);
    }
  }

  lemma {:induction false} TkStagesSplit(stages: seq<Stage>, n: nat, k: List)
    requires n <= |stages|
    ensures TkStages(stages[..n], TkStages(stages[n..], k)) == TkStages(stages, k)
    decreases n
  {
    if n == 0 {
      assert stages[..0] == [] && stages[0..] == stages;
    } else {
      hide TkStage;
      assert stages[..n][1..] == stages[1..][..n - 1] && stages[n..] == stages[1..][n - 1..];
      TkStagesSplit(stages[1..], n - 1, k);
    }
  }

  lemma MultilineChainTokens(c: Chain, trailing: Option<string>, k: Text, z: List)
    ensures TokensOf(FmtMultilineChain(c, trailing, k), z) == TkChain(c, TokensOf(k, z))
  {
    Unfold();
    hide TokensOf, FmtStages, FmtStageLines, FmtEndpoint, TkStages;
    if IsLongStruct(c.source) {
      var n := InlineCount(c.stages);
      var lines := LineEnd(trailing, FmtStageLines(c.stages[n..], k));
      var inline := FmtStages(c.stages[..n], lines);
      FieldLinesTokens(c.source.fields, W(INDENT, T(RBrace, inline)), z);
      StagesTokens(c.stages[..n], lines, z);
      StageLinesTokens(c.stages[n..], k, z);
      TkStagesSplit(c.stages, n, TokensOf(k, z));
    } else {
      EndpointTokens(c.source, LineEnd(trailing, FmtStageLines(c.stages, k)), z);
      StageLinesTokens(c.stages, k, z);
    }
  }

  lemma {:induction false} AlignedTokens(c: Chain, j: nat, group: seq<Row>, k: Text, z: List)
    requires j <= |c.stages|
    ensures
      TokensOf(FmtAligned(c, j, group, k), z)
      == if j == 0 then TkChain(c, TokensOf(k, z))
         else TkStage(c.stages[j - 1], TkStages(c.stages[j..], TokensOf(k, z)))
    decreases |c.stages| - j
  {
    Unfold();
    hide FmtStage, FmtEndpoint, TkStage, TkEndpoint, ColumnWidth, Width;
    var width := Width(FmtPart(c, j, End));
    var pad := if ColumnWidth(group, j) > width then ColumnWidth(group, j) - width else 0;
    var after := if j == |c.stages| then k else W(Spaces(pad) + " ", T(Arrow, W(" ", FmtAligned(c, j + 1, group, k))));
    if j < |c.stages| {
      AlignedTokens(c, j + 1, group, k, z);
      assert c.stages[j..][0] == c.stages[j] && c.stages[j..][1..] == c.stages[j + 1..];
    }
    assert TokensOf(after, z) == TkStages(c.stages[j..], TokensOf(k, z));
    if j == 0 {
      assert c.stages[0..] == c.stages;
      EndpointTokens(c.source, after, z);
    } else {
      StageTokens(c.stages[j - 1], after, z);
    }
  }

  /** The tokens of the chains of a group. */
  function TkRows(rows: seq<Row>, k: List): List
  {
    if rows == [] then k else TkChain(rows[0].chain, TkRows(rows[1..], k))
  }

  lemma {:induction false} GroupTokens(rows: seq<Row>, group: seq<Row>, k: Text, z: List)
    ensures TokensOf(FmtGroup(rows, group, k), z) == TkRows(rows, TokensOf(k, z))
  {
    Unfold();
    hide FmtAligned, TkChain;
    if rows != [] {
      GroupTokens(rows[1..], group, k, z);
      AlignedTokens(rows[0].chain, 0, group, LineEnd(rows[0].trailing, FmtGroup(rows[1..], group, k)), z);
    }
  }

  lemma {:induction false} TkRowsSnoc(rows: seq<Row>, row: Row, k: List)
    ensures TkRows(rows + [row], k) == TkRows(rows, TkChain(row.chain, k))
  {
    hide TkChain;
    if rows == [] {
      assert rows + [row] == [row] && [row][1..] == [];
    } else {
      assert (rows + [row])[1..] == rows[1..] + [row];
      TkRowsSnoc(rows[1..], row, k);
    }
  }

  // ---- Callables and modules ----

  lemma FlushTokens(acc: Text, group: seq<Row>, z: List)
    ensures TokensOf(Flush(acc, group), z) == TokensOf(acc, TkRows(group, z))
  {
    Unfold();
    TokensAppend(acc, FmtGroup(group, group, End), z);
    GroupTokens(group, group, End, z);
  }

  lemma BlankLineTokens(acc: Text, z: List)
    ensures TokensOf(BlankLine(acc), z) == TokensOf(acc, z)
  {
    Unfold();
    TokensAppend(acc, NewLine(End), z);
  }

  lemma RemarksTokens(acc: Text, indent: string, cs: seq<string>, z: List)
    ensures TokensOf(Append(acc, Remarks(indent, cs)), z) == TokensOf(acc, z)
  {
    Unfold();
    TokensAppend(acc, Remarks(indent, cs), z);
  }

  lemma BreakTokens(acc: Text, group: seq<Row>, i: nat, c: ChainComments, z: List)
    ensures TokensOf(Break(acc, group, i, c), z) == TokensOf(acc, TkRows(group, z))
  {
    hide BlankLine, Flush, Remarks, TokensOf, TkRows;
    var flushed := Flush(acc, group);
    FlushTokens(acc, group, z);
    BlankLineTokens(flushed, z);
    RemarksTokens(if c.blank && i > 0 then BlankLine(flushed) else flushed, INDENT, c.leading, z);
  }

  lemma {:induction false} BodyTokens(
    acc: Text, group: seq<Row>, chains: seq<Chain>, i: nat, comments: seq<ChainComments>, z: List)
    requires i <= |chains|
    ensures
      TokensOf(FmtBody(acc, group, chains, i, comments), z)
      == TokensOf(acc, TkRows(group, TkChains(chains[i..], z)))
    decreases |chains| - i
  {
    Unfold();
    hide TkChain, IsMultiline, Break, FmtMultilineChain, Flush, TokensOf;
    if i == |chains| {
      FlushTokens(acc, group, z);
    } else {
      var chain, rest := chains[i], TkChains(chains[i + 1..], z);
      assert chains[i..][0] == chain && chains[i..][1..] == chains[i + 1..];
      assert TkChains(chains[i..], z) == TkChain(chain, rest);
      var c := ChainAt(comments, i);
      var acc1 := if Breaks(c) then Break(acc, group, i, c) else acc;
      var group1 := if Breaks(c) then [] else group;
      var here := TkRows(group1, TkChain(chain, rest));
      BreakTokens(acc, group, i, c, here);
      if IsMultiline(chain) {
        var lines := FmtMultilineChain(chain, c.trailing, End);
        TokensAppend(Flush(acc1, group1), lines, rest);
        MultilineChainTokens(chain, c.trailing, End, rest);
        FlushTokens(acc1, group1, TkChain(chain, rest));
        BodyTokens(Append(Flush(acc1, group1), lines), [], chains, i + 1, comments, z);
      } else {
        BodyTokens(acc1, group1 + [Row(chain, c.trailing)], chains, i + 1, comments, z);
        TkRowsSnoc(group1, Row(chain, c.trailing), rest);
      }
    }
  }

  lemma HeaderTokens(kind: Text, c: Callable, z: List)
    ensures
      TokensOf(FmtHeader(kind, c, End), z)
      == TokensOf(kind, Cons(Ident(c.name), TkParams(c.nodeParams, TkInputs(c.inputs, Cons(Arrow,
           TkPortOrList(c.outputs, Cons(LBrace, z)))))))
  {
    Unfold();
    hide FmtInputs, TkInputs, FmtPortOrList, TkPortOrList;
    var brace := W(" ", T(LBrace, NewLine(End)));
    var outputs := FmtPortOrList(c.outputs, brace);
    var inputs := FmtInputs(c.inputs, W(" ", T(Arrow, W(" ", outputs))));
    PortOrListTokens(c.outputs, brace, z);
    InputsTokens(c.inputs, W(" ", T(Arrow, W(" ", outputs))), z);
    TokensAppend(kind, W(" ", T(Ident(c.name), FmtParams(c.nodeParams, inputs))), z);
    if c.nodeParams != [] {
      ParamListTokens(c.nodeParams, T(Greater, inputs), z);
    }
  }

  lemma CallableTokens(acc: Text, kind: Text, c: Callable, comments: seq<ChainComments>, z: List)
    ensures TokensOf(FmtCallable(acc, kind, c, comments), z) == TokensOf(acc, TokensOf(kind, TkCallable(c, z)))
  {
    Unfold();
    hide FmtHeader, FmtBody, TkChains, TkParams, TkInputs, TkPortOrList;
    var header := FmtHeader(kind, c, End);
    var body := FmtBody(Append(acc, header), [], c.chains, 0, comments);
    TokensAppend(body, T(RBrace, NewLine(End)), z);
    var z1 := Cons(RBrace, z);
    BodyTokens(Append(acc, header), [], c.chains, 0, comments, z1);
    assert c.chains[0..] == c.chains;
    EmptyGroup(TkChains(c.chains, z1));
    TokensAppend(acc, header, TkChains(c.chains, z1));
    HeaderTokens(kind, c, TkChains(c.chains, z1));
  }

  lemma EmptyGroup(z: List)
    ensures TkRows([], z) == z
  {
  }

  lemma DeclTokens(acc: Text, d: Decl, comments: seq<ChainComments>, z: List)
    ensures TokensOf(FmtDecl(acc, d, comments), z) == TokensOf(acc, TkDecl(d, HasLastComma(d), z))
  {
    Unfold();
    hide FmtCallable, TkCallable, FmtImport, FmtForeign, TkForeignHead, TkSource, FitsLine;
    match d
    case TypeAlias(n, ty) =>
      TokensAppend(acc, FmtAlias(n, ty, End), z);
      TypeTokens(ty, NewLine(End), z);
    case StructDecl(n, fields) =>
      TokensAppend(acc, FmtStruct(n, fields, End), z);
      StructLinesTokens(fields, T(RBrace, NewLine(End)), z);
    case Import(source, clause) =>
      TokensAppend(acc, FmtImport(source, clause, End), z);
      ImportTokens(source, clause, z);
    case Foreign(language, origin, nodes) =>
      TokensAppend(acc, FmtForeign(language, origin, nodes, End), z);
      ForeignTokens(language, origin, nodes, z);
    case Node(c) => CallableTokens(acc, if c.isExtern then EXTERN_NODE else NODE, c, comments, z);
    case Program(c) => CallableTokens(acc, PROGRAM, c, comments, z);
  }

  function LastCommas(ds: seq<Decl>): (r: seq<bool>)
    ensures |r| == |ds|
  {
    if ds == [] then [] else [HasLastComma(ds[0])] + LastCommas(ds[1..])
  }

  lemma BetweenTokens(acc: Text, ds: seq<Decl>, i: nat, leading: seq<string>, z: List)
    requires i < |ds|
    ensures TokensOf(Between(acc, ds, i, leading), z) == TokensOf(acc, z)
  {
    hide BlankLine, NeedsBlankBetween, TokensOf, Remarks;
    BlankLineTokens(acc, z);
    RemarksTokens(if i > 0 && NeedsBlankBetween(ds[i - 1], ds[i]) then BlankLine(acc) else acc, "", leading, z);
  }

  lemma {:induction false} DeclsTokens(acc: Text, ds: seq<Decl>, i: nat, layout: Layout)
    requires i <= |ds|
    ensures
      TokensOf(FmtDecls(acc, ds, i, layout), Nil)
      == TokensOf(acc, TkDecls(ds[i..], LastCommas(ds[i..])))
    decreases |ds| - i
  {
    Unfold();
    hide FmtDecl, TkDecl, HasLastComma, Between, TokensOf;
    if i < |ds| {
      var c := DeclAt(layout, i);
      var acc1 := Between(acc, ds, i, c.leading);
      var rest := TkDecls(ds[i + 1..], LastCommas(ds[i + 1..]));
      DeclsTokens(FmtDecl(acc1, ds[i], c.chains), ds, i + 1, layout);
      DeclTokens(acc1, ds[i], c.chains, rest);
      BetweenTokens(acc, ds, i, c.leading, TkDecl(ds[i], HasLastComma(ds[i]), rest));
      assert ds[i..][0] == ds[i] && ds[i..][1..] == ds[i + 1..];
      assert LastCommas(ds[i..])[1..] == LastCommas(ds[i + 1..]);
    }
  }

  lemma ModuleTokens(m: Module, layout: Layout)
    ensures TokensOf(FmtModule(m, layout), Nil) == TkDecls(m.declarations, LastCommas(m.declarations))
  {
    Unfold();
    DeclsTokens(End, m.declarations, 0, layout);
    assert m.declarations[0..] == m.declarations;
    TokensAppend(FmtDecls(End, m.declarations, 0, layout), NewLine(End), Nil);
  }
}
