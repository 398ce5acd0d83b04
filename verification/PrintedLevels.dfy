/** What is printed in one piece closes the brackets it opens; only annotations need not. */
module PrintedLevels {
  import opened Tokens
  import opened Ast
  import Parsing
  import opened WellFormed
  import opened Rendering
  import opened Formatting
  import opened Comments
  import opened CommentLayout
  import opened PrintedLines

  /** Lets the verifier follow the level of a text as far as it is spelled out. */
  lemma Unfold()
    ensures forall l, token, rest {:trigger Through(l, T(token, rest))} ::
              Through(l, T(token, rest)) == Through(TokenLevel(l, token), rest)
    ensures forall l, blank, rest {:trigger Through(l, W(blank, rest))} ::
              blank == " " ==> Through(l, W(blank, rest)) == Through(l, rest)
    ensures forall l, rest :: Through(l, NewLine(rest)) == Some(Line(l, None, rest))
  {
  }

  /** Blanks at the start of a line. */
  lemma Indented(l: Level, n: nat, rest: Text)
    ensures Through(l, W(INDENT, rest)) == Through(l, rest)
    ensures Through(l, W(INDENT + INDENT, rest)) == Through(l, rest)
    ensures Through(l, W(Spaces(n) + " ", rest)) == Through(l, rest)
  {
    NoNewLine(INDENT);
    NoNewLine(INDENT + INDENT);
    NoNewLine(Spaces(n) + " ");
  }

  lemma NoNewLine(blank: string)
    requires AllSpaces(blank)
    ensures blank != "\n"
  {
    assert "\n"[0] == '\n';
  }

  // ---- Names ----

  lemma {:induction false} SegmentsLevel(l: Level, q: QName, k: Text)
    ensures Through(l, FmtSegments(q, k)) == Through(l, k)
  {
    Unfold();
    if q != [] { SegmentsLevel(l, q[1..], k); }
  }

  lemma QNameLevel(l: Level, q: QName, k: Text)
    ensures Through(l, FmtQName(q, k)) == Through(l, k)
  {
    Unfold();
    if q != [] { SegmentsLevel(l, q[1..], k); }
  }

  lemma {:induction false} ArgsLevel(l: Level, args: seq<QName>, k: Text)
    ensures Through(l, FmtArgs(args, k)) == Through(l, k)
  {
    Unfold();
    if args != [] {
      ArgsLevel(l, args[1..], k);
      QNameLevel(l, args[0], if |args| == 1 then k else T(Comma, FmtArgs(args[1..], k)));
    }
  }

  lemma RefLevel(l: Level, r: NodeRef, k: Text)
    ensures Through(l, FmtRef(r, k)) == Through(l, k)
  {
    Unfold();
    ArgsLevel(l, r.args, T(Greater, k));
    QNameLevel(l, r.base, if r.args == [] then k else T(Less, FmtArgs(r.args, T(Greater, k))));
  }

  // ---- Endpoints, stages and arms ----

  lemma {:induction false} EndpointLevel(l: Level, e: Endpoint, k: Text)
    ensures Through(l, FmtEndpoint(e, k)) == Through(l, k)
    decreases e, 0
  {
    Unfold();
    hide Through, FmtItems, FmtFields, FmtStages, FmtRef;
    match e
    case Name(r) => RefLevel(l, r, k);
    case Tuple(items) => ItemsLevel(TokenLevel(l, LParen), items, T(RParen, k));
    case Seq(items) => ItemsLevel(TokenLevel(l, LBracket), items, T(RBracket, k));
    case Struct(n, fields) => FieldsLevel(TokenLevel(l, LBrace), fields, W(" ", T(RBrace, k)));
    case Eval(source, stages) =>
      EndpointLevel(l, source, FmtStages(stages, k));
      StagesLevel(l, stages, k);
    case _ =>
  }

  lemma {:induction false} ItemsLevel(l: Level, items: seq<Endpoint>, k: Text)
    ensures Through(l, FmtItems(items, k)) == Through(l, k)
    decreases items
  {
    Unfold();
    hide Through, FmtEndpoint;
    if |items| == 1 {
      EndpointLevel(l, items[0], k);
    } else if items != [] {
      ItemsLevel(l, items[1..], k);
      EndpointLevel(l, items[0], T(Comma, W(" ", FmtItems(items[1..], k))));
    }
  }

  lemma {:induction false} FieldLevel(l: Level, f: Field, k: Text)
    ensures Through(l, FmtField(f, k)) == Through(l, k)
    decreases f
  {
    Unfold();
    EndpointLevel(l, f.value, k);
  }

  lemma {:induction false} FieldsLevel(l: Level, fields: seq<Field>, k: Text)
    ensures Through(l, FmtFields(fields, k)) == Through(l, k)
    decreases fields
  {
    Unfold();
    hide Through, FmtField;
    if |fields| == 1 {
      FieldLevel(l, fields[0], k);
    } else if fields != [] {
      FieldsLevel(l, fields[1..], k);
      FieldLevel(l, fields[0], T(Comma, W(" ", FmtFields(fields[1..], k))));
    }
  }

  lemma {:induction false} StagesLevel(l: Level, stages: seq<Stage>, k: Text)
    ensures Through(l, FmtStages(stages, k)) == Through(l, k)
    decreases stages
  {
    Unfold();
    hide Through, FmtStage;
    if stages != [] {
      StagesLevel(l, stages[1..], k);
      StageLevel(l, stages[0], FmtStages(stages[1..], k));
    }
  }

  lemma {:induction false} StageLevel(l: Level, s: Stage, k: Text)
    ensures Through(l, FmtStage(s, k)) == Through(l, k)
    decreases s, 0
  {
    Unfold();
    hide Through, FmtEndpoint, FmtTarget, FmtRef, FmtFaultMap, FmtIdentity, FmtArms;
    match s
    case Value(e) => EndpointLevel(l, e, k);
    case Bind(t) => TargetLevel(l, t, k);
    case Map(r) => RefLevel(l, r, k);
    case FaultMap(r, ok, fault) => FaultMapLevel(l, r, ok, fault, k);
    case Filter(r) => RefLevel(l, r, k);
    case FieldOf(n) =>
    case Repeat(count, r) =>
      RefLevel(l, r, k);
      EndpointLevel(l, count, T(Greater, W(" ", FmtRef(r, k))));
    case Reduce(r, identity) =>
      RefLevel(l, r, FmtIdentity(identity, k));
      IdentityLevel(l, identity, k);
    case Scan(r, identity) =>
      RefLevel(l, r, FmtIdentity(identity, k));
      IdentityLevel(l, identity, k);
    case Match(arms) => ArmsLevel(TokenLevel(l, LBrace), arms, W(" ", T(RBrace, k)));
  }

  lemma FaultMapLevel(l: Level, r: NodeRef, ok: string, fault: string, k: Text)
    ensures Through(l, FmtFaultMap(r, ok, fault, k)) == Through(l, k)
  {
    Unfold();
    hide Through, FmtRef;
    var faultPart := T(Ident("fault"), W(" ", T(Arrow, W(" ", T(Token.Variable(fault), W(" ", T(RBrace, k)))))));
    var okPart := T(Ident("ok"), W(" ", T(Arrow, W(" ", T(Token.Variable(ok), T(Comma, W(" ", faultPart)))))));
    RefLevel(l, r, W(" ", T(LBrace, W(" ", okPart))));
  }

  lemma {:induction false} IdentityLevel(l: Level, identity: Endpoint, k: Text)
    ensures Through(l, FmtIdentity(identity, k)) == Through(l, k)
    decreases identity, 1
  {
    Unfold();
    hide Through, FmtEndpoint;
    EndpointLevel(TokenLevel(l, LParen), identity, T(RParen, k));
  }

  lemma {:induction false} TargetLevel(l: Level, t: BindingTarget, k: Text)
    ensures Through(l, FmtTarget(t, k)) == Through(l, k)
    decreases t
  {
    Unfold();
    hide Through, FmtTargets;
    if t.Both? { TargetsLevel(TokenLevel(l, LParen), t.items, T(RParen, k)); }
  }

  lemma {:induction false} TargetsLevel(l: Level, items: seq<BindingTarget>, k: Text)
    ensures Through(l, FmtTargets(items, k)) == Through(l, k)
    decreases items
  {
    Unfold();
    hide Through, FmtTarget;
    if |items| == 1 {
      TargetLevel(l, items[0], k);
    } else if items != [] {
      TargetsLevel(l, items[1..], k);
      TargetLevel(l, items[0], T(Comma, W(" ", FmtTargets(items[1..], k))));
    }
  }

  lemma {:induction false} ArmsLevel(l: Level, arms: seq<MatchArm>, k: Text)
    ensures Through(l, FmtArms(arms, k)) == Through(l, k)
    decreases arms
  {
    Unfold();
    hide Through, FmtArm;
    if |arms| == 1 {
      ArmLevel(l, arms[0], k);
    } else if arms != [] {
      ArmsLevel(l, arms[1..], k);
      ArmLevel(l, arms[0], W(" ", FmtArms(arms[1..], k)));
    }
  }

  lemma {:induction false} ArmLevel(l: Level, arm: MatchArm, k: Text)
    ensures Through(l, FmtArm(arm, k)) == Through(l, k)
    decreases arm, 1
  {
    Unfold();
    hide Through, FmtEndpoint, FmtRef, FmtItems;
    match arm.target {
      case ToNode(r) => RefLevel(l, r, k);
      case ToValue(e) => EndpointLevel(l, e, k);
    }
    var after := W(" ", T(Arrow, W(" ", FmtMatchTarget(arm.target, k))));
    match arm.guard {
      case Fallback =>
      case Call(r, args) =>
        ItemsLevel(TokenLevel(l, LParen), args, T(RParen, after));
        RefLevel(l, r, T(LParen, FmtItems(args, T(RParen, after))));
    }
  }

  lemma {:induction false} AlignedLevel(l: Level, c: Chain, j: nat, group: seq<Row>, k: Text)
    requires j <= |c.stages|
    ensures Through(l, FmtAligned(c, j, group, k)) == Through(l, k)
    decreases |c.stages| - j
  {
    Unfold();
    hide Through, FmtStage, FmtEndpoint, ColumnWidth, Width;
    var width := Width(FmtPart(c, j, End));
    var pad := if ColumnWidth(group, j) > width then ColumnWidth(group, j) - width else 0;
    var after := if j == |c.stages| then k else W(Spaces(pad) + " ", T(Arrow, W(" ", FmtAligned(c, j + 1, group, k))));
    if j < |c.stages| {
      AlignedLevel(l, c, j + 1, group, k);
      Indented(l, pad, T(Arrow, W(" ", FmtAligned(c, j + 1, group, k))));
    }
    if j == 0 { EndpointLevel(l, c.source, after); } else { StageLevel(l, c.stages[j - 1], after); }
  }

  // ---- Annotations ----

  /** The level behind an annotation. */
  function TypeLevel(l: Level, ty: TypeText): Level
    decreases ty
  {
    if ty == [] then l else TypeLevel(TokenLevel(l, ty[0]), ty[1..])
  }

  function PortsLevel(l: Level, ps: seq<Port>): Level
    decreases ps
  {
    if ps == [] then l else PortsLevel(TypeLevel(l, ps[0].ty), ps[1..])
  }

  function ParamsLevel(l: Level, ps: seq<NodeParam>): Level
    decreases ps
  {
    if ps == [] then l else ParamsLevel(TypeLevel(TypeLevel(l, ps[0].input), ps[0].output), ps[1..])
  }

  function HeaderLevel(l: Level, c: Callable): Level
  {
    PortsLevel(PortsLevel(ParamsLevel(l, c.nodeParams), c.inputs), c.outputs)
  }

  function NodesLevel(l: Level, ns: seq<ForeignNode>): Level
    decreases ns
  {
    if ns == [] then l else NodesLevel(PortsLevel(PortsLevel(l, ns[0].inputs), ns[0].outputs), ns[1..])
  }

  /** The level behind a declaration, which depends on its annotations alone. */
  function DeclLevel(l: Level, d: Decl): Level
  {
    match d
    case TypeAlias(_, ty) => TypeLevel(l, ty)
    case StructDecl(_, fields) => PortsLevel(l, fields)
    case Import(_, _) => l
    case Foreign(_, _, nodes) => NodesLevel(l, nodes)
    case Node(c) => HeaderLevel(l, c)
    case Program(c) => HeaderLevel(l, c)
  }

  function DeclsLevel(l: Level, ds: seq<Decl>, n: nat): Level
    requires n <= |ds|
  {
    if n == 0 then l else DeclLevel(DeclsLevel(l, ds, n - 1), ds[n - 1])
  }

  /** Brackets around a piece of text do not change what its annotations add. */
  function Add(l: Level, brace: int, paren: int, bracket: int): Level
  {
    Level(l.brace + brace, l.paren + paren, l.bracket + bracket)
  }

  lemma {:induction false} TypeAdds(l: Level, ty: TypeText, a: int, b: int, c: int)
    ensures TypeLevel(Add(l, a, b, c), ty) == Add(TypeLevel(l, ty), a, b, c)
    decreases ty
  {
    if ty != [] { TypeAdds(TokenLevel(l, ty[0]), ty[1..], a, b, c); }
  }

  lemma {:induction false} PortsAdd(l: Level, ps: seq<Port>, a: int, b: int, c: int)
    ensures PortsLevel(Add(l, a, b, c), ps) == Add(PortsLevel(l, ps), a, b, c)
    decreases ps
  {
    if ps != [] {
      TypeAdds(l, ps[0].ty, a, b, c);
      PortsAdd(TypeLevel(l, ps[0].ty), ps[1..], a, b, c);
    }
  }

  lemma {:induction false} TypeBraces(empty: bool, depth: nat, l: Level, ty: TypeText)
    requires TypeReads(empty, depth, ty)
    ensures TypeLevel(l, ty).brace == l.brace
    decreases |ty|
  {
    if ty != [] { TypeBraces(false, Parsing.DepthAfter(depth, ty[0]), TokenLevel(l, ty[0]), ty[1..]); }
  }

  lemma {:induction false} PortsBraces(l: Level, ps: seq<Port>)
    requires WfPorts(ps)
    ensures PortsLevel(l, ps).brace == l.brace
    decreases ps
  {
    if ps != [] {
      assert WfPort(ps[0]);
      TypeBraces(true, 0, l, ps[0].ty);
      PortsBraces(TypeLevel(l, ps[0].ty), ps[1..]);
    }
  }

  lemma {:induction false} ParamsBraces(l: Level, ps: seq<NodeParam>)
    requires forall i :: 0 <= i < |ps| ==> WfParam(ps[i])
    ensures ParamsLevel(l, ps).brace == l.brace
    decreases ps
  {
    if ps != [] {
      assert WfParam(ps[0]);
      var l1 := TypeLevel(l, ps[0].input);
      TypeBraces(true, 0, l, ps[0].input);
      TypeBraces(true, 0, l1, ps[0].output);
      ParamsBraces(TypeLevel(l1, ps[0].output), ps[1..]);
    }
  }

  lemma HeaderBraces(l: Level, c: Callable)
    requires WfCallable(c)
    ensures HeaderLevel(l, c).brace == l.brace
  {
    ParamsBraces(l, c.nodeParams);
    PortsBraces(ParamsLevel(l, c.nodeParams), c.inputs);
    PortsBraces(PortsLevel(ParamsLevel(l, c.nodeParams), c.inputs), c.outputs);
  }

  // ---- Lines with annotations ----

  lemma {:induction false} TypeTailLevel(l: Level, ty: TypeText, k: Text)
    ensures Through(l, FmtTypeTail(ty, k)) == Through(TypeLevel(l, ty), k)
    decreases ty
  {
    Unfold();
    if ty != [] { TypeTailLevel(TokenLevel(l, ty[0]), ty[1..], k); }
  }

  lemma TypeTextLevel(l: Level, ty: TypeText, k: Text)
    ensures Through(l, FmtType(ty, k)) == Through(TypeLevel(l, ty), k)
  {
    Unfold();
    TypeTailLevel(l, ty, k);
  }

  lemma PortTextLevel(l: Level, p: Port, k: Text)
    ensures Through(l, FmtPort(p, k)) == Through(TypeLevel(l, p.ty), k)
  {
    Unfold();
    TypeTextLevel(l, p.ty, k);
  }

  lemma {:induction false} PortsTextLevel(l: Level, ps: seq<Port>, k: Text)
    ensures Through(l, FmtPorts(ps, k)) == Through(PortsLevel(l, ps), k)
    decreases ps
  {
    Unfold();
    hide Through, FmtPort;
    if |ps| == 1 {
      PortTextLevel(l, ps[0], k);
      assert PortsLevel(TypeLevel(l, ps[0].ty), ps[1..]) == TypeLevel(l, ps[0].ty);
    } else if ps != [] {
      PortsTextLevel(TypeLevel(l, ps[0].ty), ps[1..], k);
      PortTextLevel(l, ps[0], T(Comma, W(" ", FmtPorts(ps[1..], k))));
    }
  }

  /** Ports in parentheses. */
  lemma PortsInParens(l: Level, ps: seq<Port>, k: Text)
    ensures Through(l, T(LParen, FmtPorts(ps, T(RParen, k)))) == Through(PortsLevel(l, ps), k)
  {
    Unfold();
    hide Through, FmtPorts, PortsLevel;
    var inner := TokenLevel(l, LParen);
    PortsTextLevel(inner, ps, T(RParen, k));
    PortsAdd(l, ps, 0, 1, 0);
    assert inner == Add(l, 0, 1, 0);
    assert TokenLevel(Add(PortsLevel(l, ps), 0, 1, 0), RParen) == PortsLevel(l, ps);
  }

  lemma PortOrListLevel(l: Level, ps: seq<Port>, k: Text)
    ensures Through(l, FmtPortOrList(ps, k)) == Through(PortsLevel(l, ps), k)
  {
    if |ps| == 1 {
      PortTextLevel(l, ps[0], k);
      assert PortsLevel(TypeLevel(l, ps[0].ty), ps[1..]) == TypeLevel(l, ps[0].ty);
    } else {
      PortsInParens(l, ps, k);
    }
  }

  lemma ParamLevel(l: Level, p: NodeParam, k: Text)
    ensures Through(l, FmtParam(p, k)) == Through(TypeLevel(TypeLevel(l, p.input), p.output), k)
  {
    Unfold();
    hide Through, FmtType, TypeLevel;
    var output := T(RParen, W(" ", T(Arrow, W(" ", FmtType(p.output, k)))));
    var inner := TokenLevel(l, LParen);
    TypeTextLevel(inner, p.input, output);
    TypeAdds(l, p.input, 0, 1, 0);
    assert inner == Add(l, 0, 1, 0);
    var after := TypeLevel(l, p.input);
    assert TokenLevel(Add(after, 0, 1, 0), RParen) == after;
    TypeTextLevel(after, p.output, k);
  }

  lemma {:induction false} ParamListLevel(l: Level, ps: seq<NodeParam>, k: Text)
    ensures Through(l, FmtParamList(ps, k)) == Through(ParamsLevel(l, ps), k)
    decreases ps
  {
    Unfold();
    hide Through, FmtParam;
    if ps != [] {
      var after := TypeLevel(TypeLevel(l, ps[0].input), ps[0].output);
      if |ps| == 1 {
        ParamLevel(l, ps[0], k);
        assert ParamsLevel(after, ps[1..]) == after;
      } else {
        ParamListLevel(after, ps[1..], k);
        ParamLevel(l, ps[0], T(Comma, W(" ", FmtParamList(ps[1..], k))));
      }
    }
  }

  /** Behind the keyword of a callable. */
  lemma SignatureLevel(l: Level, c: Callable, k: Text)
    ensures
      var outputs := FmtPortOrList(c.outputs, W(" ", T(LBrace, NewLine(k))));
      var inputs := FmtInputs(c.inputs, W(" ", T(Arrow, W(" ", outputs))));
      Through(l, W(" ", T(Ident(c.name), FmtParams(c.nodeParams, inputs))))
        == Some(Line(TokenLevel(HeaderLevel(l, c), LBrace), None, k))
  {
    Unfold();
    hide Through, FmtPorts, FmtPortOrList, FmtParamList, PortsLevel;
    var brace := W(" ", T(LBrace, NewLine(k)));
    var arrow := W(" ", T(Arrow, W(" ", FmtPortOrList(c.outputs, brace))));
    var l1 := ParamsLevel(l, c.nodeParams);
    var l2 := PortsLevel(l1, c.inputs);
    ParamListLevel(l, c.nodeParams, T(Greater, FmtInputs(c.inputs, arrow)));
    PortsInParens(l1, c.inputs, arrow);
    PortOrListLevel(l2, c.outputs, brace);
  }

  lemma ForeignNodeLevel(l: Level, n: ForeignNode, k: Text)
    ensures Through(l, FmtForeignNode(n, k)) == Through(PortsLevel(PortsLevel(l, n.inputs), n.outputs), k)
  {
    Unfold();
    hide Through, FmtPorts, FmtPortOrList, FmtQName, PortsLevel;
    var result := W(" ", T(Equal, W(" ", FmtQName(n.symbol, k))));
    var l1 := PortsLevel(l, n.inputs);
    PortsInParens(l, n.inputs, W(" ", T(Arrow, W(" ", FmtPortOrList(n.outputs, result)))));
    PortOrListLevel(l1, n.outputs, result);
    QNameLevel(PortsLevel(l1, n.outputs), n.symbol, k);
  }

  // ---- Imports and heads ----

  lemma SourceLevel(l: Level, s: ImportSource, k: Text)
    ensures Through(l, FmtSource(s, k)) == Through(l, k)
  {
    Unfold();
    if s.FromModule? { QNameLevel(l, s.path, k); }
  }

  lemma ItemLevel(l: Level, i: ImportItem, k: Text)
    ensures Through(l, FmtItem(i, k)) == Through(l, k)
  {
    Unfold();
  }

  lemma {:induction false} ImportItemsLevel(l: Level, items: seq<ImportItem>, k: Text)
    ensures Through(l, FmtImportItems(items, k)) == Through(l, k)
  {
    Unfold();
    hide Through, FmtItem;
    if |items| == 1 {
      ItemLevel(l, items[0], k);
    } else if items != [] {
      ImportItemsLevel(l, items[1..], k);
      ItemLevel(l, items[0], T(Comma, W(" ", FmtImportItems(items[1..], k))));
    }
  }

  lemma ImportHeadLevel(l: Level, source: ImportSource, k: Text)
    ensures Through(l, FmtImportHead(source, k)) == Through(l, k)
  {
    Unfold();
    SourceLevel(l, source, W(" ", k));
  }

  lemma ForeignHeadLevel(l: Level, language: ForeignTarget, origin: ForeignSource, k: Text)
    ensures Through(l, FmtForeignHead(language, origin, k)) == Through(l, k)
  {
    Unfold();
  }
}
