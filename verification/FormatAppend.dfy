/** Formatting with a continuation is formatting without one, and then the continuation. */
module FormatAppend {
  import opened Tokens
  import opened Ast
  import opened Rendering
  import opened Formatting
  import opened Comments

  /** Lets the verifier append to a text as far as it is spelled out. */
  lemma Unfold()
    ensures forall token, rest, u :: Append(T(token, rest), u) == T(token, Append(rest, u))
    ensures forall blank, rest, u :: Append(W(blank, rest), u) == W(blank, Append(rest, u))
    ensures forall u :: Append(End, u) == u
  {
  }

  // ---- Names and types ----

  lemma {:induction false} SegmentsAppend(q: QName, k: Text, u: Text)
    ensures FmtSegments(q, Append(k, u)) == Append(FmtSegments(q, k), u)
  {
    Unfold();
    if q != [] {
      SegmentsAppend(q[1..], k, u);
    }
  }

  lemma QNameAppend(q: QName, k: Text, u: Text)
    ensures FmtQName(q, Append(k, u)) == Append(FmtQName(q, k), u)
  {
    Unfold();
    if q != [] {
      SegmentsAppend(q[1..], k, u);
    }
  }

  lemma {:induction false} ArgsAppend(args: seq<QName>, k: Text, u: Text)
    ensures FmtArgs(args, Append(k, u)) == Append(FmtArgs(args, k), u)
  {
    Unfold();
    if |args| == 1 {
      QNameAppend(args[0], k, u);
    } else if args != [] {
      ArgsAppend(args[1..], k, u);
      QNameAppend(args[0], T(Comma, FmtArgs(args[1..], k)), u);
    }
  }

  lemma RefAppend(r: NodeRef, k: Text, u: Text)
    ensures FmtRef(r, Append(k, u)) == Append(FmtRef(r, k), u)
  {
    Unfold();
    if r.args == [] {
      QNameAppend(r.base, k, u);
    } else {
      ArgsAppend(r.args, T(Greater, k), u);
      QNameAppend(r.base, T(Less, FmtArgs(r.args, T(Greater, k))), u);
    }
  }

  lemma {:induction false} TypeTailAppend(ty: TypeText, k: Text, u: Text)
    ensures FmtTypeTail(ty, Append(k, u)) == Append(FmtTypeTail(ty, k), u)
  {
    Unfold();
    if ty != [] {
      TypeTailAppend(ty[1..], k, u);
    }
  }

  lemma TypeAppend(ty: TypeText, k: Text, u: Text)
    ensures FmtType(ty, Append(k, u)) == Append(FmtType(ty, k), u)
  {
    Unfold();
    TypeTailAppend(ty, k, u);
  }

  // ---- Endpoints, stages and arms ----

  lemma {:induction false} EndpointAppend(e: Endpoint, k: Text, u: Text)
    ensures FmtEndpoint(e, Append(k, u)) == Append(FmtEndpoint(e, k), u)
    decreases e, 0
  {
    Unfold();
    match e
    case Name(r) => RefAppend(r, k, u);
    case Tuple(items) => ItemsAppend(items, T(RParen, k), u);
    case Seq(items) => ItemsAppend(items, T(RBracket, k), u);
    case Struct(n, fields) => FieldsAppend(fields, W(" ", T(RBrace, k)), u);
    case Eval(source, stages) =>
      EndpointAppend(source, FmtStages(stages, k), u);
      StagesAppend(stages, k, u);
    case _ =>
  }

  lemma {:induction false} ItemsAppend(items: seq<Endpoint>, k: Text, u: Text)
    ensures FmtItems(items, Append(k, u)) == Append(FmtItems(items, k), u)
    decreases items
  {
    Unfold();
    if |items| == 1 {
      EndpointAppend(items[0], k, u);
    } else if items != [] {
      ItemsAppend(items[1..], k, u);
      EndpointAppend(items[0], T(Comma, W(" ", FmtItems(items[1..], k))), u);
    }
  }

  lemma {:induction false} FieldsAppend(fields: seq<Field>, k: Text, u: Text)
    ensures FmtFields(fields, Append(k, u)) == Append(FmtFields(fields, k), u)
    decreases fields
  {
    Unfold();
    if |fields| == 1 {
      EndpointAppend(fields[0].value, k, u);
    } else if fields != [] {
      FieldsAppend(fields[1..], k, u);
      EndpointAppend(fields[0].value, T(Comma, W(" ", FmtFields(fields[1..], k))), u);
    }
  }

  lemma {:induction false} StagesAppend(stages: seq<Stage>, k: Text, u: Text)
    ensures FmtStages(stages, Append(k, u)) == Append(FmtStages(stages, k), u)
    decreases stages
  {
    Unfold();
    if stages != [] {
      StagesAppend(stages[1..], k, u);
      StageAppend(stages[0], FmtStages(stages[1..], k), u);
    }
  }

  lemma {:induction false} StageAppend(s: Stage, k: Text, u: Text)
    ensures FmtStage(s, Append(k, u)) == Append(FmtStage(s, k), u)
    decreases s, 0
  {
    Unfold();
    match s
    case Value(e) => EndpointAppend(e, k, u);
    case Bind(t) => TargetAppend(t, k, u);
    case Map(r) => RefAppend(r, k, u);
    case FaultMap(r, ok, fault) => FaultMapAppend(r, ok, fault, k, u);
    case Filter(r) => RefAppend(r, k, u);
    case FieldOf(n) =>
    case Repeat(count, r) =>
      RefAppend(r, k, u);
      EndpointAppend(count, T(Greater, W(" ", FmtRef(r, k))), u);
    case Reduce(r, identity) =>
      RefAppend(r, FmtIdentity(identity, k), u);
      IdentityAppend(identity, k, u);
    case Scan(r, identity) =>
      RefAppend(r, FmtIdentity(identity, k), u);
      IdentityAppend(identity, k, u);
    case Match(arms) => ArmsAppend(arms, W(" ", T(RBrace, k)), u);
  }

  lemma FaultMapAppend(r: NodeRef, ok: string, fault: string, k: Text, u: Text)
    ensures FmtFaultMap(r, ok, fault, Append(k, u)) == Append(FmtFaultMap(r, ok, fault, k), u)
  {
    Unfold();
    var faultPart := T(Ident("fault"), W(" ", T(Arrow, W(" ", T(Token.Variable(fault), W(" ", T(RBrace, k)))))));
    var okPart := T(Ident("ok"), W(" ", T(Arrow, W(" ", T(Token.Variable(ok), T(Comma, W(" ", faultPart)))))));
    RefAppend(r, W(" ", T(LBrace, W(" ", okPart))), u);
  }

  lemma {:induction false} IdentityAppend(identity: Endpoint, k: Text, u: Text)
    ensures FmtIdentity(identity, Append(k, u)) == Append(FmtIdentity(identity, k), u)
    decreases identity, 1
  {
    Unfold();
    EndpointAppend(identity, T(RParen, k), u);
  }

  lemma {:induction false} TargetAppend(t: BindingTarget, k: Text, u: Text)
    ensures FmtTarget(t, Append(k, u)) == Append(FmtTarget(t, k), u)
    decreases t
  {
    Unfold();
    if t.Both? {
      TargetsAppend(t.items, T(RParen, k), u);
    }
  }

  lemma {:induction false} TargetsAppend(items: seq<BindingTarget>, k: Text, u: Text)
    ensures FmtTargets(items, Append(k, u)) == Append(FmtTargets(items, k), u)
    decreases items
  {
    Unfold();
    if |items| == 1 {
      TargetAppend(items[0], k, u);
    } else if items != [] {
      TargetsAppend(items[1..], k, u);
      TargetAppend(items[0], T(Comma, W(" ", FmtTargets(items[1..], k))), u);
    }
  }

  lemma {:induction false} ArmsAppend(arms: seq<MatchArm>, k: Text, u: Text)
    ensures FmtArms(arms, Append(k, u)) == Append(FmtArms(arms, k), u)
    decreases arms
  {
    Unfold();
    if |arms| == 1 {
      ArmAppend(arms[0], k, u);
    } else if arms != [] {
      ArmsAppend(arms[1..], k, u);
      ArmAppend(arms[0], W(" ", FmtArms(arms[1..], k)), u);
    }
  }

  lemma {:induction false} ArmAppend(arm: MatchArm, k: Text, u: Text)
    ensures FmtArm(arm, Append(k, u)) == Append(FmtArm(arm, k), u)
    decreases arm, 1
  {
    Unfold();
    match arm.target {
      case ToNode(r) => RefAppend(r, k, u);
      case ToValue(e) => EndpointAppend(e, k, u);
    }
    var after := W(" ", T(Arrow, W(" ", FmtMatchTarget(arm.target, k))));
    match arm.guard {
      case Fallback =>
      case Call(r, args) =>
        ItemsAppend(args, T(RParen, after), u);
        RefAppend(r, T(LParen, FmtItems(args, T(RParen, after))), u);
    }
  }

  // ---- Ports and parameters ----

  lemma PortAppend(p: Port, k: Text, u: Text)
    ensures FmtPort(p, Append(k, u)) == Append(FmtPort(p, k), u)
  {
    Unfold();
    TypeAppend(p.ty, k, u);
  }

  lemma {:induction false} PortsAppend(ps: seq<Port>, k: Text, u: Text)
    ensures FmtPorts(ps, Append(k, u)) == Append(FmtPorts(ps, k), u)
  {
    Unfold();
    hide FmtPort;
    if |ps| == 1 {
      PortAppend(ps[0], k, u);
    } else if ps != [] {
      PortsAppend(ps[1..], k, u);
      PortAppend(ps[0], T(Comma, W(" ", FmtPorts(ps[1..], k))), u);
    }
  }

  lemma PortOrListAppend(ps: seq<Port>, k: Text, u: Text)
    ensures FmtPortOrList(ps, Append(k, u)) == Append(FmtPortOrList(ps, k), u)
  {
    Unfold();
    hide FmtPort;
    if |ps| == 1 {
      PortAppend(ps[0], k, u);
    } else {
      PortsAppend(ps, T(RParen, k), u);
    }
  }

  lemma InputsAppend(ps: seq<Port>, k: Text, u: Text)
    ensures FmtInputs(ps, Append(k, u)) == Append(FmtInputs(ps, k), u)
  {
    Unfold();
    PortsAppend(ps, T(RParen, k), u);
  }

  lemma ParamAppend(p: NodeParam, k: Text, u: Text)
    ensures FmtParam(p, Append(k, u)) == Append(FmtParam(p, k), u)
  {
    Unfold();
    TypeAppend(p.output, k, u);
    TypeAppend(p.input, T(RParen, W(" ", T(Arrow, W(" ", FmtType(p.output, k))))), u);
  }

  lemma {:induction false} ParamListAppend(ps: seq<NodeParam>, k: Text, u: Text)
    ensures FmtParamList(ps, Append(k, u)) == Append(FmtParamList(ps, k), u)
  {
    Unfold();
    hide FmtParam;
    if |ps| == 1 {
      ParamAppend(ps[0], k, u);
    } else if ps != [] {
      ParamListAppend(ps[1..], k, u);
      ParamAppend(ps[0], T(Comma, W(" ", FmtParamList(ps[1..], k))), u);
    }
  }

  lemma ParamsAppend(ps: seq<NodeParam>, k: Text, u: Text)
    ensures FmtParams(ps, Append(k, u)) == Append(FmtParams(ps, k), u)
  {
    Unfold();
    if ps != [] {
      ParamListAppend(ps, T(Greater, k), u);
    }
  }

  lemma ItemAppend(i: ImportItem, k: Text, u: Text)
    ensures FmtItem(i, Append(k, u)) == Append(FmtItem(i, k), u)
  {
    Unfold();
  }

  lemma FieldAppend(f: Field, k: Text, u: Text)
    ensures FmtField(f, Append(k, u)) == Append(FmtField(f, k), u)
  {
    Unfold();
    EndpointAppend(f.value, k, u);
  }

  // ---- Declarations without chains ----

  lemma {:induction false} StructLinesAppend(ps: seq<Port>, k: Text, u: Text)
    ensures FmtStructLines(ps, Append(k, u)) == Append(FmtStructLines(ps, k), u)
  {
    Unfold();
    hide FmtPort;
    if ps != [] {
      StructLinesAppend(ps[1..], k, u);
      PortAppend(ps[0], T(Comma, NewLine(FmtStructLines(ps[1..], k))), u);
    }
  }

  lemma {:induction false} ImportItemsAppend(items: seq<ImportItem>, k: Text, u: Text)
    ensures FmtImportItems(items, Append(k, u)) == Append(FmtImportItems(items, k), u)
  {
    Unfold();
    if |items| > 1 {
      ImportItemsAppend(items[1..], k, u);
    }
  }

  lemma {:induction false} ImportLinesAppend(items: seq<ImportItem>, k: Text, u: Text)
    ensures FmtImportLines(items, Append(k, u)) == Append(FmtImportLines(items, k), u)
  {
    Unfold();
    if items != [] {
      ImportLinesAppend(items[1..], k, u);
    }
  }

  lemma SourceAppend(s: ImportSource, k: Text, u: Text)
    ensures FmtSource(s, Append(k, u)) == Append(FmtSource(s, k), u)
  {
    Unfold();
    if s.FromModule? {
      QNameAppend(s.path, k, u);
    }
  }

  lemma ImportHeadAppend(source: ImportSource, k: Text, u: Text)
    ensures FmtImportHead(source, Append(k, u)) == Append(FmtImportHead(source, k), u)
  {
    Unfold();
    SourceAppend(source, W(" ", k), u);
  }

  lemma InlineImportAppend(source: ImportSource, items: seq<ImportItem>, k: Text, u: Text)
    ensures FmtInlineImport(source, items, Append(k, u)) == Append(FmtInlineImport(source, items, k), u)
  {
    hide FmtImportHead;
    Unfold();
    var list := FmtImportItems(items, W(" ", T(RBrace, k)));
    ImportItemsAppend(items, W(" ", T(RBrace, k)), u);
    ImportHeadAppend(source, T(LBrace, W(" ", list)), u);
  }

  lemma ImportAppend(source: ImportSource, clause: ImportClause, k: Text, u: Text)
    ensures FmtImport(source, clause, Append(k, u)) == Append(FmtImport(source, clause, k), u)
  {
    hide FmtImportHead, FmtInlineImport, FitsLine;
    Unfold();
    match clause
    case As(alias) => ImportHeadAppend(source, T(Ident("as"), W(" ", T(Ident(alias), NewLine(k)))), u);
    case Items(items) =>
      if FitsLine(source, items) {
        InlineImportAppend(source, items, NewLine(k), u);
      } else {
        ImportLinesAppend(items, T(RBrace, NewLine(k)), u);
        ImportHeadAppend(source, T(LBrace, NewLine(FmtImportLines(items, T(RBrace, NewLine(k))))), u);
      }
  }

  lemma ForeignNodeAppend(n: ForeignNode, k: Text, u: Text)
    ensures FmtForeignNode(n, Append(k, u)) == Append(FmtForeignNode(n, k), u)
  {
    Unfold();
    hide FmtInputs, FmtPortOrList, FmtQName;
    var result := W(" ", T(Equal, W(" ", FmtQName(n.symbol, k))));
    QNameAppend(n.symbol, k, u);
    PortOrListAppend(n.outputs, result, u);
    InputsAppend(n.inputs, W(" ", T(Arrow, W(" ", FmtPortOrList(n.outputs, result)))), u);
  }

  lemma {:induction false} ForeignLinesAppend(ns: seq<ForeignNode>, k: Text, u: Text)
    ensures FmtForeignLines(ns, Append(k, u)) == Append(FmtForeignLines(ns, k), u)
  {
    Unfold();
    hide FmtForeignNode;
    if ns != [] {
      ForeignLinesAppend(ns[1..], k, u);
      ForeignNodeAppend(ns[0], NewLine(FmtForeignLines(ns[1..], k)), u);
    }
  }

  lemma ForeignHeadAppend(language: ForeignTarget, origin: ForeignSource, k: Text, u: Text)
    ensures FmtForeignHead(language, origin, Append(k, u)) == Append(FmtForeignHead(language, origin, k), u)
  {
    Unfold();
  }

  lemma ForeignAppend(language: ForeignTarget, origin: ForeignSource, nodes: seq<ForeignNode>, k: Text, u: Text)
    ensures FmtForeign(language, origin, nodes, Append(k, u)) == Append(FmtForeign(language, origin, nodes, k), u)
  {
    hide FmtForeignHead, FmtForeignLines;
    Unfold();
    ForeignLinesAppend(nodes, T(RBrace, NewLine(k)), u);
    var body := T(LBrace, NewLine(FmtForeignLines(nodes, T(RBrace, NewLine(k)))));
    ForeignHeadAppend(language, origin, W(" ", body), u);
  }

  lemma AliasAppend(name: string, ty: TypeText, k: Text, u: Text)
    ensures FmtAlias(name, ty, Append(k, u)) == Append(FmtAlias(name, ty, k), u)
  {
    Unfold();
    TypeAppend(ty, NewLine(k), u);
  }

  lemma StructAppend(name: string, fields: seq<Port>, k: Text, u: Text)
    ensures FmtStruct(name, fields, Append(k, u)) == Append(FmtStruct(name, fields, k), u)
  {
    Unfold();
    StructLinesAppend(fields, T(RBrace, NewLine(k)), u);
  }

  // ---- Chains ----

  lemma {:induction false} ArmLinesAppend(arms: seq<MatchArm>, k: Text, u: Text)
    ensures FmtArmLines(arms, Append(k, u)) == Append(FmtArmLines(arms, k), u)
  {
    Unfold();
    hide FmtArm;
    if arms != [] {
      ArmLinesAppend(arms[1..], k, u);
      ArmAppend(arms[0], NewLine(FmtArmLines(arms[1..], k)), u);
    }
  }

  lemma StageLineAppend(s: Stage, k: Text, u: Text)
    ensures FmtStageLine(s, Append(k, u)) == Append(FmtStageLine(s, k), u)
  {
    hide FmtStage, FmtArmLines;
    Unfold();
    match s
    case Match(arms) => ArmLinesAppend(arms, W(INDENT, T(RBrace, NewLine(k))), u);
    case _ => StageAppend(s, NewLine(k), u);
  }

  lemma {:induction false} StageLinesAppend(stages: seq<Stage>, k: Text, u: Text)
    ensures FmtStageLines(stages, Append(k, u)) == Append(FmtStageLines(stages, k), u)
  {
    hide FmtStageLine;
    if stages != [] {
      StageLinesAppend(stages[1..], k, u);
      StageLineAppend(stages[0], FmtStageLines(stages[1..], k), u);
    }
  }

  lemma {:induction false} FieldLinesAppend(fields: seq<Field>, k: Text, u: Text)
    ensures FmtFieldLines(fields, Append(k, u)) == Append(FmtFieldLines(fields, k), u)
  {
    Unfold();
    hide FmtEndpoint;
    if |fields| == 1 {
      EndpointAppend(fields[0].value, NewLine(k), u);
    } else if fields != [] {
      FieldLinesAppend(fields[1..], k, u);
      EndpointAppend(fields[0].value, T(Comma, NewLine(FmtFieldLines(fields[1..], k))), u);
    }
  }

  lemma LongStructAppend(e: Endpoint, k: Text, u: Text)
    requires e.Struct?
    ensures FmtLongStruct(e, Append(k, u)) == Append(FmtLongStruct(e, k), u)
  {
    Unfold();
    FieldLinesAppend(e.fields, W(INDENT, T(RBrace, k)), u);
  }

  lemma LineEndAppend(trailing: Option<string>, k: Text, u: Text)
    ensures LineEnd(trailing, Append(k, u)) == Append(LineEnd(trailing, k), u)
  {
    Unfold();
  }

  lemma MultilineChainAppend(c: Chain, trailing: Option<string>, k: Text, u: Text)
    ensures FmtMultilineChain(c, trailing, Append(k, u)) == Append(FmtMultilineChain(c, trailing, k), u)
  {
    hide FmtLongStruct, FmtEndpoint, FmtStages, FmtStageLines, Width;
    Unfold();
    if IsLongStruct(c.source) {
      var n := InlineCount(c.stages);
      var lines := LineEnd(trailing, FmtStageLines(c.stages[n..], k));
      StageLinesAppend(c.stages[n..], k, u);
      LineEndAppend(trailing, FmtStageLines(c.stages[n..], k), u);
      StagesAppend(c.stages[..n], lines, u);
      LongStructAppend(c.source, FmtStages(c.stages[..n], lines), u);
    } else {
      StageLinesAppend(c.stages, k, u);
      LineEndAppend(trailing, FmtStageLines(c.stages, k), u);
      EndpointAppend(c.source, LineEnd(trailing, FmtStageLines(c.stages, k)), u);
    }
  }

  lemma PartAppend(c: Chain, j: nat, k: Text, u: Text)
    requires j <= |c.stages|
    ensures FmtPart(c, j, Append(k, u)) == Append(FmtPart(c, j, k), u)
  {
    if j == 0 {
      EndpointAppend(c.source, k, u);
    } else {
      StageAppend(c.stages[j - 1], k, u);
    }
  }

  lemma {:induction false} AlignedAppend(c: Chain, j: nat, group: seq<Row>, k: Text, u: Text)
    requires j <= |c.stages|
    ensures FmtAligned(c, j, group, Append(k, u)) == Append(FmtAligned(c, j, group, k), u)
    decreases |c.stages| - j
  {
    hide FmtPart, ColumnWidth, Width;
    Unfold();
    if j == |c.stages| {
      PartAppend(c, j, k, u);
    } else {
      var width := Width(FmtPart(c, j, End));
      var pad := if ColumnWidth(group, j) > width then ColumnWidth(group, j) - width else 0;
      AlignedAppend(c, j + 1, group, k, u);
      PartAppend(c, j, W(Spaces(pad) + " ", T(Arrow, W(" ", FmtAligned(c, j + 1, group, k)))), u);
    }
  }

  lemma {:induction false} GroupAppend(rows: seq<Row>, group: seq<Row>, k: Text, u: Text)
    ensures FmtGroup(rows, group, Append(k, u)) == Append(FmtGroup(rows, group, k), u)
  {
    hide FmtAligned;
    Unfold();
    if rows != [] {
      var rest := FmtGroup(rows[1..], group, k);
      GroupAppend(rows[1..], group, k, u);
      LineEndAppend(rows[0].trailing, rest, u);
      AlignedAppend(rows[0].chain, 0, group, LineEnd(rows[0].trailing, rest), u);
    }
  }
}
