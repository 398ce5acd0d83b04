/** The parser invents and drops nothing: a tree has the weight of the tokens it was parsed from. */
module ParserWeights {
  import opened Tokens
  import opened Ast
  import opened Parsing
  import opened WellFormed
  import opened Merging

  // ---- The weight of a tree ----

  /** Names and the points between them. */
  function QNameWeight(q: QName): nat { if q == [] then 0 else 2 * |q| - 1 }

  function ArgsWeight(args: seq<QName>): nat { if args == [] then 0 else QNameWeight(args[0]) + ArgsWeight(args[1..]) }

  function RefWeight(r: NodeRef): nat { QNameWeight(r.base) + if r.args == [] then 0 else 2 + ArgsWeight(r.args) }

  function EndpointWeight(e: Endpoint): nat
    decreases e, 0
  {
    match e
    case Name(r) => RefWeight(r)
    case Unit => 0
    case Tuple(items) => ItemsWeight(items)
    case Seq(items) => 2 + ItemsWeight(items)
    case Struct(_, fields) => 3 + FieldsWeight(fields)
    case Eval(source, stages) => EndpointWeight(source) + StagesWeight(stages)
    case _ => 1
  }

  function ItemsWeight(items: seq<Endpoint>): nat
    decreases items, 0
  {
    if items == [] then 0 else EndpointWeight(items[0]) + ItemsWeight(items[1..])
  }

  function FieldsWeight(fields: seq<Field>): nat
    decreases fields, 0
  {
    if fields == [] then 0 else 2 + EndpointWeight(fields[0].value) + FieldsWeight(fields[1..])
  }

  function StagesWeight(stages: seq<Stage>): nat
    decreases stages, 0
  {
    if stages == [] then 0 else 1 + StageWeight(stages[0]) + StagesWeight(stages[1..])
  }

  function StageWeight(s: Stage): nat
    decreases s, 0
  {
    match s
    case Value(e) => EndpointWeight(e)
    case Bind(t) => TargetWeight(t)
    case Map(r) => 1 + RefWeight(r)
    case FaultMap(r, _, _) => 10 + RefWeight(r)
    case Filter(r) => 1 + RefWeight(r)
    case FieldOf(_) => 2
    case Repeat(count, r) => 3 + EndpointWeight(count) + RefWeight(r)
    case Reduce(r, identity) => 3 + RefWeight(r) + EndpointWeight(identity)
    case Scan(r, identity) => 3 + RefWeight(r) + EndpointWeight(identity)
    case Match(arms) => 3 + ArmsWeight(arms)
  }

  function TargetWeight(t: BindingTarget): nat
    decreases t, 0
  {
    if t.Both? then TargetsWeight(t.items) else 1
  }

  function TargetsWeight(items: seq<BindingTarget>): nat
    decreases items, 0
  {
    if items == [] then 0 else TargetWeight(items[0]) + TargetsWeight(items[1..])
  }

  function ArmsWeight(arms: seq<MatchArm>): nat
    decreases arms, 0
  {
    if arms == [] then 0 else ArmWeight(arms[0]) + ArmsWeight(arms[1..])
  }

  function ArmWeight(arm: MatchArm): nat
    decreases arm, 0
  {
    1 + GuardWeight(arm.guard) + MatchTargetWeight(arm.target)
  }

  function GuardWeight(g: MatchGuard): nat
    decreases g, 0
  {
    if g.Fallback? then 1 else RefWeight(g.node) + ItemsWeight(g.args)
  }

  function MatchTargetWeight(t: MatchTarget): nat
    decreases t, 0
  {
    if t.ToNode? then RefWeight(t.node) else EndpointWeight(t.endpoint)
  }

  function TypeWeight(ty: TypeText): nat
  {
    if ty == [] then 0 else (if IsCounted(ty[0]) then 1 else 0) + TypeWeight(ty[1..])
  }

  function PortsWeight(ps: seq<Port>): nat { if ps == [] then 0 else 2 + TypeWeight(ps[0].ty) + PortsWeight(ps[1..]) }

  function SourceWeight(s: ImportSource): nat { if s.FromModule? then QNameWeight(s.path) else 1 }

  function ImportItemsWeight(items: seq<ImportItem>): nat
  {
    if items == [] then 0 else (if items[0].alias.None? then 1 else 3) + ImportItemsWeight(items[1..])
  }

  function OriginWeight(origin: ForeignSource): nat
  {
    if origin.CHeader? && origin.implementation.Some? then 5 else 3
  }

  function ForeignNodeWeight(n: ForeignNode): nat
  {
    5 + PortsWeight(n.inputs) + PortsWeight(n.outputs) + QNameWeight(n.symbol)
  }

  function ForeignNodesWeight(ns: seq<ForeignNode>): nat
  {
    if ns == [] then 0 else ForeignNodeWeight(ns[0]) + ForeignNodesWeight(ns[1..])
  }

  function ParamsWeight(ps: seq<NodeParam>): nat
  {
    if ps == [] then 0 else 4 + TypeWeight(ps[0].input) + TypeWeight(ps[0].output) + ParamsWeight(ps[1..])
  }

  function ParamListWeight(ps: seq<NodeParam>): nat { if ps == [] then 0 else 2 + ParamsWeight(ps) }

  function ChainsWeight(cs: seq<Chain>): nat
  {
    if cs == [] then 0 else EndpointWeight(cs[0].source) + StagesWeight(cs[0].stages) + ChainsWeight(cs[1..])
  }

  function CallableWeight(c: Callable): nat
  {
    4 + ParamListWeight(c.nodeParams) + PortsWeight(c.inputs) + PortsWeight(c.outputs) + ChainsWeight(c.chains)
  }

  function DeclWeight(d: Decl): nat
  {
    match d
    case TypeAlias(_, ty) => 3 + TypeWeight(ty)
    case StructDecl(_, fields) => 4 + PortsWeight(fields)
    case Import(source, As(_)) => 3 + SourceWeight(source)
    case Import(source, Items(items)) => 3 + SourceWeight(source) + ImportItemsWeight(items)
    case Foreign(_, origin, nodes) => 3 + OriginWeight(origin) + ForeignNodesWeight(nodes)
    case Node(c) => (if c.isExtern then 2 else 1) + CallableWeight(c)
    case Program(c) => 1 + CallableWeight(c)
  }

  function DeclsWeight(ds: seq<Decl>): nat { if ds == [] then 0 else DeclWeight(ds[0]) + DeclsWeight(ds[1..]) }

  /** Lets the verifier count along a token list. */
  lemma Unfold()
    ensures Weight(Nil) == 0
    ensures forall t, ts :: Weight(Cons(t, ts)) == (if IsCounted(t) then 1 else 0) + Weight(ts)
  {
  }

  /** And along the tokens that the parser takes. */
  lemma Ahead()
    ensures forall ts: List {:trigger Next(ts)} :: Weight(ts) == (if IsCounted(Peek(ts)) then 1 else 0) + Weight(Next(ts))
    ensures forall ts: List {:trigger ts.tail} :: ts.Cons? ==>
              Weight(ts) == (if IsCounted(ts.head) then 1 else 0) + Weight(ts.tail)
  {
  }

  // ---- It is the weight of its tokens ----

  lemma {:induction false} SegmentsCount(q: QName, k: List)
    ensures Weight(TkSegments(q, k)) == 2 * |q| + Weight(k)
  {
    Unfold();
    if q != [] { SegmentsCount(q[1..], k); }
  }

  lemma QNameCount(q: QName, k: List)
    ensures Weight(TkQName(q, k)) == QNameWeight(q) + Weight(k)
  {
    Unfold();
    if q != [] { SegmentsCount(q[1..], k); }
  }

  lemma {:induction false} ArgsCount(args: seq<QName>, k: List)
    ensures Weight(TkArgs(args, k)) == ArgsWeight(args) + Weight(k)
  {
    Unfold();
    if args != [] {
      ArgsCount(args[1..], k);
      QNameCount(args[0], if |args| == 1 then k else Cons(Comma, TkArgs(args[1..], k)));
    }
  }

  lemma RefCount(r: NodeRef, k: List)
    ensures Weight(TkRef(r, k)) == RefWeight(r) + Weight(k)
  {
    Unfold();
    ArgsCount(r.args, Cons(Greater, k));
    QNameCount(r.base, if r.args == [] then k else Cons(Less, TkArgs(r.args, Cons(Greater, k))));
  }

  lemma {:induction false} EndpointCount(e: Endpoint, k: List)
    ensures Weight(TkEndpoint(e, k)) == EndpointWeight(e) + Weight(k)
    decreases e, 0
  {
    Unfold();
    hide TkItems, TkFields, TkStages, ItemsWeight, FieldsWeight, StagesWeight, Weight, TkRef, RefWeight;
    match e
    case Name(r) => RefCount(r, k);
    case Tuple(items) => ItemsCount(items, Cons(RParen, k));
    case Seq(items) => ItemsCount(items, Cons(RBracket, k));
    case Struct(_, fields) => FieldsCount(fields, Cons(RBrace, k));
    case Eval(source, stages) =>
      StagesCount(stages, k);
      EndpointCount(source, TkStages(stages, k));
    case _ =>
  }

  lemma {:induction false} ItemsCount(items: seq<Endpoint>, k: List)
    ensures Weight(TkItems(items, k)) == ItemsWeight(items) + Weight(k)
    decreases items, 0
  {
    Unfold();
    hide Weight, TkEndpoint, EndpointWeight;
    if items != [] {
      ItemsCount(items[1..], k);
      EndpointCount(items[0], if |items| == 1 then k else Cons(Comma, TkItems(items[1..], k)));
    }
  }

  lemma {:induction false} FieldsCount(fields: seq<Field>, k: List)
    ensures Weight(TkFields(fields, k)) == FieldsWeight(fields) + Weight(k)
    decreases fields, 0
  {
    Unfold();
    hide Weight, TkEndpoint, EndpointWeight;
    if fields != [] {
      FieldsCount(fields[1..], k);
      EndpointCount(fields[0].value, if |fields| == 1 then k else Cons(Comma, TkFields(fields[1..], k)));
    }
  }

  lemma {:induction false} StagesCount(stages: seq<Stage>, k: List)
    ensures Weight(TkStages(stages, k)) == StagesWeight(stages) + Weight(k)
    decreases stages, 0
  {
    Unfold();
    hide Weight, TkStage, StageWeight;
    if stages != [] {
      StagesCount(stages[1..], k);
      StageCount(stages[0], TkStages(stages[1..], k));
    }
  }

  lemma OutcomesCount(ok: string, fault: string, k: List)
    ensures Weight(TkOutcomes(ok, fault, k)) == 7 + Weight(k)
  {
    Unfold();
    hide Weight;
  }

  lemma {:induction false} StageCount(s: Stage, k: List)
    ensures Weight(TkStage(s, k)) == StageWeight(s) + Weight(k)
    decreases s, 0
  {
    Unfold();
    hide Weight, TkEndpoint, EndpointWeight, TkRef, RefWeight, TkArms, ArmsWeight, TkTarget, TargetWeight, TkOutcomes,
         TkIdentity;
    match s
    case Value(e) => EndpointCount(e, k);
    case Bind(t) => TargetCount(t, k);
    case Map(r) => RefCount(r, k);
    case FaultMap(r, ok, fault) => FaultMapCount(r, ok, fault, k);
    case Filter(r) => RefCount(r, k);
    case FieldOf(_) =>
    case Repeat(count, r) => CountCount(count, r, k);
    case Reduce(r, identity) => IdentityCount(r, identity, k);
    case Scan(r, identity) => IdentityCount(r, identity, k);
    case Match(arms) => ArmsCount(arms, Cons(RBrace, k));
  }

  lemma {:induction false} CountCount(count: Endpoint, r: NodeRef, k: List)
    ensures Weight(TkEndpoint(count, Cons(Greater, TkRef(r, k)))) == 1 + EndpointWeight(count) + RefWeight(r) + Weight(k)
    decreases count, 1
  {
    Unfold();
    RefCount(r, k);
    EndpointCount(count, Cons(Greater, TkRef(r, k)));
    hide Weight, TkEndpoint, EndpointWeight, TkRef, RefWeight;
  }

  lemma {:induction false} IdentityCount(r: NodeRef, identity: Endpoint, k: List)
    ensures Weight(TkRef(r, TkIdentity(identity, k))) == 2 + RefWeight(r) + EndpointWeight(identity) + Weight(k)
    decreases identity, 1
  {
    Unfold();
    EndpointCount(identity, Cons(RParen, k));
    RefCount(r, TkIdentity(identity, k));
    hide Weight, TkEndpoint, EndpointWeight, TkRef, RefWeight;
  }

  lemma FaultMapCount(r: NodeRef, ok: string, fault: string, k: List)
    ensures Weight(TkStage(FaultMap(r, ok, fault), k)) == StageWeight(FaultMap(r, ok, fault)) + Weight(k)
  {
    Unfold();
    RefCount(r, Cons(LBrace, TkOutcomes(ok, fault, k)));
    OutcomesCount(ok, fault, k);
    hide Weight, TkRef, RefWeight, TkOutcomes;
  }

  lemma {:induction false} TargetCount(t: BindingTarget, k: List)
    ensures Weight(TkTarget(t, k)) == TargetWeight(t) + Weight(k)
    decreases t, 0
  {
    Unfold();
    if t.Both? { TargetsCount(t.items, Cons(RParen, k)); }
  }

  lemma {:induction false} TargetsCount(items: seq<BindingTarget>, k: List)
    ensures Weight(TkTargets(items, k)) == TargetsWeight(items) + Weight(k)
    decreases items, 0
  {
    Unfold();
    if items != [] {
      TargetsCount(items[1..], k);
      TargetCount(items[0], if |items| == 1 then k else Cons(Comma, TkTargets(items[1..], k)));
    }
  }

  lemma {:induction false} ArmsCount(arms: seq<MatchArm>, k: List)
    ensures Weight(TkArms(arms, k)) == ArmsWeight(arms) + Weight(k)
    decreases arms, 0
  {
    Unfold();
    hide Weight, TkGuard, TkMatchTarget, ArmWeight;
    if arms != [] {
      ArmsCount(arms[1..], k);
      ArmCount(arms[0], TkArms(arms[1..], k));
    }
  }

  lemma {:induction false} ArmCount(arm: MatchArm, k: List)
    ensures Weight(TkGuard(arm.guard, Cons(Arrow, TkMatchTarget(arm.target, k)))) == ArmWeight(arm) + Weight(k)
    decreases arm, 0
  {
    Unfold();
    hide Weight, TkGuard, TkMatchTarget, GuardWeight, MatchTargetWeight;
    MatchTargetCount(arm.target, k);
    GuardCount(arm.guard, Cons(Arrow, TkMatchTarget(arm.target, k)));
  }

  lemma {:induction false} GuardCount(g: MatchGuard, k: List)
    ensures Weight(TkGuard(g, k)) == GuardWeight(g) + Weight(k)
    decreases g, 0
  {
    Unfold();
    hide Weight, TkRef, RefWeight, TkItems, ItemsWeight;
    if g.Call? {
      ItemsCount(g.args, Cons(RParen, k));
      RefCount(g.node, Cons(LParen, TkItems(g.args, Cons(RParen, k))));
    }
  }

  lemma {:induction false} MatchTargetCount(t: MatchTarget, k: List)
    ensures Weight(TkMatchTarget(t, k)) == MatchTargetWeight(t) + Weight(k)
    decreases t, 0
  {
    if t.ToNode? { RefCount(t.node, k); } else { EndpointCount(t.endpoint, k); }
  }

  lemma {:induction false} TypeCount(ty: TypeText, k: List)
    ensures Weight(TkType(ty, k)) == TypeWeight(ty) + Weight(k)
  {
    if ty != [] { TypeCount(ty[1..], k); }
  }

  lemma {:induction false} PortsCount(ps: seq<Port>, k: List)
    ensures Weight(TkPorts(ps, k)) == PortsWeight(ps) + Weight(k)
  {
    Unfold();
    if ps != [] {
      PortsCount(ps[1..], k);
      TypeCount(ps[0].ty, if |ps| == 1 then k else Cons(Comma, TkPorts(ps[1..], k)));
    }
  }

  lemma PortOrListCount(ps: seq<Port>, k: List)
    ensures Weight(TkPortOrList(ps, k)) == PortsWeight(ps) + Weight(k)
  {
    Unfold();
    PortsCount(ps, k);
    PortsCount(ps, Cons(RParen, k));
    if |ps| == 1 { assert TkPorts(ps, k) == TkPort(ps[0], k); }
  }

  lemma {:induction false} StructPortsCount(ps: seq<Port>, k: List)
    ensures Weight(TkStructPorts(ps, k)) == PortsWeight(ps) + Weight(k)
  {
    Unfold();
    if ps != [] {
      StructPortsCount(ps[1..], k);
      TypeCount(ps[0].ty, Cons(Comma, TkStructPorts(ps[1..], k)));
    }
  }

  lemma {:induction false} ImportItemsCount(items: seq<ImportItem>, lastComma: bool, k: List)
    ensures Weight(TkImportItems(items, lastComma, k)) == ImportItemsWeight(items) + Weight(k)
  {
    Unfold();
    hide Weight;
    if items != [] {
      ImportItemsCount(items[1..], lastComma, k);
      if |items| == 1 { assert items[1..] == []; }
    }
  }

  lemma ForeignNodeCount(n: ForeignNode, k: List)
    ensures Weight(TkForeignNode(n, k)) == ForeignNodeWeight(n) + Weight(k)
  {
    Unfold();
    hide Weight, TkPorts, TkPortOrList, TkQName, PortsWeight;
    QNameCount(n.symbol, k);
    PortOrListCount(n.outputs, Cons(Equal, TkQName(n.symbol, k)));
    PortsCount(n.inputs, Cons(RParen, Cons(Arrow, TkPortOrList(n.outputs, Cons(Equal, TkQName(n.symbol, k))))));
  }

  lemma {:induction false} ForeignNodesCount(ns: seq<ForeignNode>, k: List)
    ensures Weight(TkForeignNodes(ns, k)) == ForeignNodesWeight(ns) + Weight(k)
  {
    hide TkForeignNode, ForeignNodeWeight, Weight;
    if ns != [] {
      ForeignNodesCount(ns[1..], k);
      ForeignNodeCount(ns[0], TkForeignNodes(ns[1..], k));
    }
  }

  lemma ParamCount(p: NodeParam, k: List)
    ensures Weight(TkParam(p, k)) == 4 + TypeWeight(p.input) + TypeWeight(p.output) + Weight(k)
  {
    Unfold();
    hide Weight, TkType, TypeWeight;
    TypeCount(p.output, k);
    TypeCount(p.input, Cons(RParen, Cons(Arrow, TkType(p.output, k))));
  }

  lemma {:induction false} ParamListCount(ps: seq<NodeParam>, k: List)
    ensures Weight(TkParamList(ps, k)) == ParamsWeight(ps) + Weight(k)
  {
    Unfold();
    hide Weight, TkParam;
    if ps != [] {
      ParamListCount(ps[1..], k);
      ParamCount(ps[0], if |ps| == 1 then k else Cons(Comma, TkParamList(ps[1..], k)));
    }
  }

  lemma {:induction false} ChainsCount(cs: seq<Chain>, k: List)
    ensures Weight(TkChains(cs, k)) == ChainsWeight(cs) + Weight(k)
  {
    hide Weight, TkEndpoint, TkStages, EndpointWeight, StagesWeight;
    if cs != [] {
      ChainsCount(cs[1..], k);
      StagesCount(cs[0].stages, TkChains(cs[1..], k));
      EndpointCount(cs[0].source, TkStages(cs[0].stages, TkChains(cs[1..], k)));
    }
  }

  lemma CallableCount(c: Callable, k: List)
    ensures Weight(TkCallable(c, k)) == CallableWeight(c) + Weight(k)
  {
    Unfold();
    hide Weight, TkPorts, TkPortOrList, TkChains, TkParamList, PortsWeight, ParamsWeight, ChainsWeight;
    var chains := TkChains(c.chains, Cons(RBrace, k));
    ChainsCount(c.chains, Cons(RBrace, k));
    var outputs := TkPortOrList(c.outputs, Cons(LBrace, chains));
    PortOrListCount(c.outputs, Cons(LBrace, chains));
    PortsCount(c.inputs, Cons(RParen, Cons(Arrow, outputs)));
    ParamListCount(c.nodeParams, Cons(Greater, TkInputs(c.inputs, Cons(Arrow, outputs))));
    if c.nodeParams == [] { NoParams(); }
  }

  lemma NoParams()
    ensures ParamsWeight([]) == 0 && ParamListWeight([]) == 0
  {}

  lemma ImportCount(source: ImportSource, clause: ImportClause, lastComma: bool, k: List)
    ensures Weight(TkDecl(Import(source, clause), lastComma, k)) == DeclWeight(Import(source, clause)) + Weight(k)
  {
    Unfold();
    hide Weight, TkImportItems, ImportItemsWeight, TkQName;
    var after := match clause
      case As(n) => Cons(Ident("as"), Cons(Ident(n), k))
      case Items(items) => Cons(LBrace, TkImportItems(items, lastComma, Cons(RBrace, k)));
    if clause.Items? { ImportItemsCount(clause.items, lastComma, Cons(RBrace, k)); }
    if source.FromModule? { QNameCount(source.path, after); }
  }

  lemma ForeignCount(language: ForeignTarget, origin: ForeignSource, nodes: seq<ForeignNode>, k: List)
    ensures
      Weight(TkForeignHead(language, origin, Cons(LBrace, TkForeignNodes(nodes, Cons(RBrace, k)))))
      == 2 + OriginWeight(origin) + ForeignNodesWeight(nodes) + Weight(k)
  {
    Unfold();
    ForeignNodesCount(nodes, Cons(RBrace, k));
    hide Weight, TkForeignNodes, ForeignNodesWeight;
  }

  lemma DeclCount(d: Decl, lastComma: bool, k: List)
    ensures Weight(TkDecl(d, lastComma, k)) == DeclWeight(d) + Weight(k)
  {
    Unfold();
    hide Weight, TkCallable, CallableWeight, TkType, TypeWeight, TkStructPorts, PortsWeight, TkImportItems,
         ImportItemsWeight,
         TkForeignNodes, ForeignNodesWeight, TkQName, TkForeignHead, TkSource, SourceWeight, OriginWeight;
    match d
    case TypeAlias(_, ty) => TypeCount(ty, k);
    case StructDecl(_, fields) => StructPortsCount(fields, Cons(RBrace, k));
    case Import(source, clause) => ImportCount(source, clause, lastComma, k);
    case Foreign(language, origin, nodes) => ForeignCount(language, origin, nodes, k);
    case Node(c) => CallableCount(c, k);
    case Program(c) => CallableCount(c, k);
  }

  lemma {:induction false} DeclsCount(ds: seq<Decl>, lastComma: seq<bool>)
    requires |ds| == |lastComma|
    ensures Weight(TkDecls(ds, lastComma)) == DeclsWeight(ds)
  {
    hide TkDecl, DeclWeight;
    if ds != [] {
      DeclsCount(ds[1..], lastComma[1..]);
      DeclCount(ds[0], lastComma[0], TkDecls(ds[1..], lastComma[1..]));
    }
  }

  // ---- Growing lists ----

  lemma {:induction false} ArgsGrow(args: seq<QName>, q: QName)
    ensures ArgsWeight(args + [q]) == ArgsWeight(args) + QNameWeight(q)
  {
    if args != [] {
      assert (args + [q])[1..] == args[1..] + [q];
      ArgsGrow(args[1..], q);
    }
  }

  lemma {:induction false} ItemsGrow(items: seq<Endpoint>, e: Endpoint)
    ensures ItemsWeight(items + [e]) == ItemsWeight(items) + EndpointWeight(e)
  {
    if items != [] {
      assert (items + [e])[1..] == items[1..] + [e];
      ItemsGrow(items[1..], e);
    }
  }

  lemma {:induction false} TargetsGrow(items: seq<BindingTarget>, t: BindingTarget)
    ensures TargetsWeight(items + [t]) == TargetsWeight(items) + TargetWeight(t)
  {
    if items != [] {
      assert (items + [t])[1..] == items[1..] + [t];
      TargetsGrow(items[1..], t);
    }
  }

  lemma TwoTargets(a: BindingTarget, b: BindingTarget)
    ensures TargetsWeight([a, b]) == TargetWeight(a) + TargetWeight(b)
  {
    TargetsGrow([], a);
    TargetsGrow([a], b);
    assert [] + [a] == [a] && [a] + [b] == [a, b];
  }

  lemma {:induction false} FieldsGrow(fields: seq<Field>, f: Field)
    ensures FieldsWeight(fields + [f]) == FieldsWeight(fields) + 2 + EndpointWeight(f.value)
  {
    if fields != [] {
      assert (fields + [f])[1..] == fields[1..] + [f];
      FieldsGrow(fields[1..], f);
    }
  }

  lemma {:induction false} StagesGrow(stages: seq<Stage>, s: Stage)
    ensures StagesWeight(stages + [s]) == StagesWeight(stages) + 1 + StageWeight(s)
  {
    if stages != [] {
      assert (stages + [s])[1..] == stages[1..] + [s];
      StagesGrow(stages[1..], s);
    }
  }

  lemma {:induction false} ArmsGrow(arms: seq<MatchArm>, a: MatchArm)
    ensures ArmsWeight(arms + [a]) == ArmsWeight(arms) + 1 + GuardWeight(a.guard) + MatchTargetWeight(a.target)
  {
    if arms != [] {
      assert (arms + [a])[1..] == arms[1..] + [a];
      ArmsGrow(arms[1..], a);
    }
  }

  lemma {:induction false} TypeGrows(ty: TypeText, t: Token)
    ensures TypeWeight(ty + [t]) == TypeWeight(ty) + if IsCounted(t) then 1 else 0
  {
    if ty != [] {
      assert (ty + [t])[1..] == ty[1..] + [t];
      TypeGrows(ty[1..], t);
    }
  }

  lemma {:induction false} PortsGrow(ps: seq<Port>, p: Port)
    ensures PortsWeight(ps + [p]) == PortsWeight(ps) + 2 + TypeWeight(p.ty)
  {
    if ps != [] {
      assert (ps + [p])[1..] == ps[1..] + [p];
      PortsGrow(ps[1..], p);
    }
  }

  lemma {:induction false} ImportItemsGrow(items: seq<ImportItem>, i: ImportItem)
    ensures ImportItemsWeight(items + [i]) == ImportItemsWeight(items) + if i.alias.None? then 1 else 3
  {
    if items != [] {
      assert (items + [i])[1..] == items[1..] + [i];
      ImportItemsGrow(items[1..], i);
    }
  }

  lemma {:induction false} ForeignNodesGrow(ns: seq<ForeignNode>, n: ForeignNode)
    ensures ForeignNodesWeight(ns + [n]) == ForeignNodesWeight(ns) + ForeignNodeWeight(n)
  {
    if ns != [] {
      assert (ns + [n])[1..] == ns[1..] + [n];
      ForeignNodesGrow(ns[1..], n);
    }
  }

  lemma {:induction false} ParamsGrow(ps: seq<NodeParam>, p: NodeParam)
    ensures ParamsWeight(ps + [p]) == ParamsWeight(ps) + 4 + TypeWeight(p.input) + TypeWeight(p.output)
  {
    if ps != [] {
      assert (ps + [p])[1..] == ps[1..] + [p];
      ParamsGrow(ps[1..], p);
    }
  }

  lemma {:induction false} ChainsGrow(cs: seq<Chain>, c: Chain)
    ensures ChainsWeight(cs + [c]) == ChainsWeight(cs) + EndpointWeight(c.source) + StagesWeight(c.stages)
  {
    if cs != [] {
      assert (cs + [c])[1..] == cs[1..] + [c];
      ChainsGrow(cs[1..], c);
    }
  }

  lemma {:induction false} DeclsGrow(ds: seq<Decl>, d: Decl)
    ensures DeclsWeight(ds + [d]) == DeclsWeight(ds) + DeclWeight(d)
  {
    if ds != [] {
      assert (ds + [d])[1..] == ds[1..] + [d];
      DeclsGrow(ds[1..], d);
    }
  }

  // ---- What is parsed has the weight of the tokens taken ----

  lemma {:induction false} QIdentTailTakes(acc: QName, ts: List)
    ensures var r := QIdentTail(acc, ts); r.Ok? ==>
              2 * |r.value| + Weight(r.rest) == 2 * |acc| + Weight(ts) && |r.value| >= |acc|
    decreases ts
  {
    Ahead();
    if Peek(ts) == Dot && ExpectIdent(Next(ts)).Ok? { QIdentTailTakes(acc + [ts.tail.head.name], ts.tail.tail); }
  }

  lemma QIdentTakes(ts: List)
    ensures var r := QIdent(ts); r.Ok? ==> r.value != [] && QNameWeight(r.value) + Weight(r.rest) == Weight(ts)
  {
    Ahead();
    if Peek(ts).Ident? { QIdentTailTakes([ts.head.name], ts.tail); }
  }

  lemma {:induction false} RefArgsTake(acc: seq<QName>, ts: List)
    ensures var r := RefArgs(acc, ts); r.Ok? ==>
              r.value != [] && ArgsWeight(r.value) + 1 + Weight(r.rest) == ArgsWeight(acc) + Weight(ts)
    decreases ts
  {
    Ahead();
    hide ArgsWeight, Weight;
    QIdentTakes(ts);
    if QIdent(ts).Ok? {
      ArgsGrow(acc, QIdent(ts).value);
      var ts1 := QIdent(ts).rest;
      if Peek(ts1) == Comma && Peek(Next(ts1)) != Greater { RefArgsTake(acc + [QIdent(ts).value], Next(ts1)); }
    }
  }

  lemma NodeRefTakes(ts: List)
    ensures var r := ParseNodeRef(ts); r.Ok? ==> RefWeight(r.value) + Weight(r.rest) == Weight(ts)
  {
    Ahead();
    QIdentTakes(ts);
    if QIdent(ts).Ok? {
      var ts1 := QIdent(ts).rest;
      if Peek(ts1) == Less { RefArgsTake([], Next(ts1)); }
    }
  }

  lemma {:induction false} TargetTakes(ts: List)
    ensures var r := ParseTarget(ts); r.Ok? ==> TargetWeight(r.value) + Weight(r.rest) == Weight(ts)
    decreases ts, 0
  {
    Ahead();
    hide TargetItems, TargetsWeight, Weight;
    if Peek(ts) == LParen {
      TargetTakes(ts.tail);
      var first := ParseTarget(ts.tail);
      if first.Ok? && Peek(first.rest) == Comma {
        TargetTakes(first.rest.tail);
        var second := ParseTarget(first.rest.tail);
        if second.Ok? {
          TwoTargets(first.value, second.value);
          TargetItemsTake([first.value, second.value], second.rest);
        }
      }
    }
  }

  lemma {:induction false} TargetItemsTake(acc: seq<BindingTarget>, ts: List)
    ensures var r := TargetItems(acc, ts); r.Ok? ==>
              TargetsWeight(r.value) + Weight(r.rest) == TargetsWeight(acc) + Weight(ts)
    decreases ts, 1
  {
    Ahead();
    hide ParseTarget, TargetsWeight, Weight;
    if Peek(ts) == Comma {
      TargetTakes(ts.tail);
      var item := ParseTarget(ts.tail);
      if item.Ok? {
        TargetsGrow(acc, item.value);
        TargetItemsTake(acc + [item.value], item.rest);
      }
    }
  }

  lemma {:induction false} AtomTakes(ts: List)
    ensures var r := ParseAtom(ts); r.Ok? ==> EndpointWeight(r.value) + Weight(r.rest) == Weight(ts)
    decreases ts, 0
  {
    Ahead();
    hide ParseInline, TupleItems, InlineList, StructFields, Weight, ItemsWeight, FieldsWeight;
    NoItems();
    if Peek(ts) == LParen {
      TupleTakes(ts);
    } else if Peek(ts) == LBracket {
      if Peek(ts.tail) != RBracket { InlineListTakes([], RBracket, ts.tail); }
    } else if Peek(ts).Ident? && Peek(ts.tail) == LBrace && Peek(ts.tail.tail) != RBrace {
      StructFieldsTake([], ts.tail.tail);
    }
  }

  lemma NoItems()
    ensures ItemsWeight([]) == 0 && FieldsWeight([]) == 0 && StagesWeight([]) == 0 && ArmsWeight([]) == 0
  {}

  lemma {:induction false} TupleTakes(ts: List)
    requires Peek(ts) == LParen
    ensures var r := ParseAtom(ts); r.Ok? ==> EndpointWeight(r.value) + Weight(r.rest) == Weight(ts)
    decreases ts, -1
  {
    Ahead();
    hide ParseInline, TupleItems, Weight, ItemsWeight;
    if Peek(ts.tail) != RParen {
      InlineTakes(ts.tail);
      var first := ParseInline(ts.tail);
      if first.Ok? && Peek(first.rest) == Comma {
        InlineTakes(first.rest.tail);
        var second := ParseInline(first.rest.tail);
        if second.Ok? {
          TwoItems(first.value, second.value);
          TupleItemsTake([first.value, second.value], second.rest);
        }
      }
    }
  }

  lemma TwoItems(a: Endpoint, b: Endpoint)
    ensures ItemsWeight([a, b]) == EndpointWeight(a) + EndpointWeight(b)
  {
    ItemsGrow([], a);
    ItemsGrow([a], b);
    assert [] + [a] == [a] && [a] + [b] == [a, b];
    NoItems();
  }

  lemma {:induction false} InlineTakes(ts: List)
    ensures var r := ParseInline(ts); r.Ok? ==> EndpointWeight(r.value) + Weight(r.rest) == Weight(ts)
    decreases ts, 3
  {
    hide ParseAtom, Stages, Weight;
    NoItems();
    AtomTakes(ts);
    var source := ParseAtom(ts);
    if source.Ok? {
      StagesTake([], source.rest);
      var stages := Stages([], source.rest);
      if stages.Ok? {
        assert ParseInline(ts) == Ok(if stages.value == [] then source.value else Eval(source.value, stages.value), stages.rest);
        assert EndpointWeight(Eval(source.value, stages.value))
          == EndpointWeight(source.value) + StagesWeight(stages.value);
      }
    }
  }

  function Closing(close: Token): nat { if IsCounted(close) then 1 else 0 }

  lemma {:induction false} InlineListTakes(acc: seq<Endpoint>, close: Token, ts: List)
    requires close != Eof
    ensures var r := InlineList(acc, close, ts); r.Ok? ==>
              ItemsWeight(r.value) + Closing(close) + Weight(r.rest) == ItemsWeight(acc) + Weight(ts)
    decreases ts, 4
  {
    Ahead();
    hide ParseInline, Weight, ItemsWeight, EndpointWeight;
    InlineTakes(ts);
    var item := ParseInline(ts);
    if item.Ok? {
      ItemsGrow(acc, item.value);
      var ts1 := item.rest;
      if Peek(ts1) == Comma && Peek(Next(ts1)) != close { InlineListTakes(acc + [item.value], close, Next(ts1)); }
    }
  }

  lemma {:induction false} TupleItemsTake(acc: seq<Endpoint>, ts: List)
    ensures var r := TupleItems(acc, ts); r.Ok? ==> ItemsWeight(r.value) + Weight(r.rest) == ItemsWeight(acc) + Weight(ts)
    decreases ts, 4
  {
    Ahead();
    hide ParseInline, Weight, ItemsWeight, EndpointWeight;
    if Peek(ts) == Comma {
      InlineTakes(ts.tail);
      var item := ParseInline(ts.tail);
      if item.Ok? {
        ItemsGrow(acc, item.value);
        TupleItemsTake(acc + [item.value], item.rest);
      }
    }
  }

  lemma {:induction false} StructFieldsTake(acc: seq<Field>, ts: List)
    ensures var r := StructFields(acc, ts); r.Ok? ==>
              FieldsWeight(r.value) + 1 + Weight(r.rest) == FieldsWeight(acc) + Weight(ts)
    decreases ts, 4
  {
    Ahead();
    hide ParseInline, Weight, FieldsWeight, EndpointWeight;
    if Peek(ts).Ident? && Peek(Next(ts)) == Colon {
      var ts2 := Next(Next(ts));
      InlineTakes(ts2);
      var value := ParseInline(ts2);
      if value.Ok? {
        var f := Field(ts.head.name, value.value);
        FieldsGrow(acc, f);
        var ts3 := value.rest;
        if Peek(ts3) == Comma && Peek(Next(ts3)) != RBrace { StructFieldsTake(acc + [f], Next(ts3)); }
      }
    }
  }

  lemma {:induction false} StagesTake(acc: seq<Stage>, ts: List)
    ensures var r := Stages(acc, ts); r.Ok? ==> StagesWeight(r.value) + Weight(r.rest) == StagesWeight(acc) + Weight(ts)
    decreases ts, 2
  {
    Ahead();
    hide ParseStage, Weight, StagesWeight, StageWeight;
    if Peek(ts) == Arrow {
      StageTakes(Next(ts));
      var stage := ParseStage(Next(ts));
      if stage.Ok? {
        StagesGrow(acc, stage.value);
        StagesTake(acc + [stage.value], stage.rest);
      }
    }
  }

  lemma {:induction false} StageTakes(ts: List)
    ensures var r := ParseStage(ts); r.Ok? ==> StageWeight(r.value) + Weight(r.rest) == Weight(ts)
    decreases ts, 2
  {
    hide ParseTarget, ParseAtom, WordStage, Weight;
    match Peek(ts)
    case Ident(word) => WordStageTakes(word, ts);
    case Variable(_) => TargetTakes(ts);
    case Discard => TargetTakes(ts);
    case LParen => TargetTakes(ts);
    case _ => AtomTakes(ts);
  }

  lemma {:induction false} WordStageTakes(word: string, ts: List)
    requires Peek(ts) == Ident(word)
    ensures var r := WordStage(word, ts); r.Ok? ==> StageWeight(r.value) + Weight(r.rest) == Weight(ts)
    decreases ts, 0
  {
    Ahead();
    hide ParseNodeRef, RepeatStage, IdentityArgument, Arms, NodeStage, Weight, ArmsWeight, RefWeight, EndpointWeight;
    NoItems();
    if word == "repeat" {
      RepeatTakes(ts.tail);
    } else if word == "reduce" || word == "scan" {
      NodeRefTakes(ts.tail);
      var node := ParseNodeRef(ts.tail);
      if node.Ok? { IdentityTakes(node.rest); }
    } else if word == "match" {
      if Peek(ts.tail) == LBrace { ArmsTake([], false, ts.tail.tail); }
    } else {
      NodeStageTakes(word, ts);
    }
  }

  lemma NodeStageTakes(word: string, ts: List)
    requires Peek(ts) == Ident(word)
    ensures var r := NodeStage(word, ts); r.Ok? ==> StageWeight(r.value) + Weight(r.rest) == Weight(ts)
  {
    Ahead();
    hide ParseNodeRef, FaultMapStage, Weight, RefWeight;
    if word == "map" || word == "filter" {
      NodeRefTakes(ts.tail);
    } else if word == "fault" {
      FaultMapTakes(ts.tail);
    } else if word != "field" {
      NodeRefTakes(ts);
    }
  }

  lemma FaultMapTakes(ts: List)
    ensures var r := FaultMapStage(ts); r.Ok? ==> StageWeight(r.value) + Weight(r.rest) == Weight(ts) + 1
  {
    Ahead();
    hide ParseNodeRef, Outcomes, Weight, RefWeight;
    if Peek(ts) == Ident("map") {
      NodeRefTakes(ts.tail);
      var node := ParseNodeRef(ts.tail);
      if node.Ok? { OutcomesTake(node.value, node.rest); }
    }
  }

  lemma OutcomesTake(node: NodeRef, ts: List)
    ensures var r := Outcomes(node, ts); r.Ok? ==> r.value.node == node && 8 + Weight(r.rest) == Weight(ts)
  {
    OutcomesAre(node, ts);
    var r := Outcomes(node, ts);
    Unfold();
    if r.Ok? { OutcomesCount(r.value.ok, r.value.fault, r.rest); }
    hide Weight, Outcomes, TkOutcomes;
  }

  lemma OutcomesAre(node: NodeRef, ts: List)
    ensures
      var r := Outcomes(node, ts);
      r.Ok? ==> r.value.node == node && ts == Cons(LBrace, TkOutcomes(r.value.ok, r.value.fault, r.rest))
  {
  }

  lemma {:induction false} RepeatTakes(ts: List)
    ensures var r := RepeatStage(ts); r.Ok? ==> StageWeight(r.value) + Weight(r.rest) == Weight(ts) + 1
    decreases ts, 1
  {
    Ahead();
    hide ParseNodeRef, ParseAtom, Weight, RefWeight, EndpointWeight;
    if Peek(ts) == Less {
      AtomTakes(ts.tail);
      var count := ParseAtom(ts.tail);
      if count.Ok? && Peek(count.rest) == Greater { NodeRefTakes(count.rest.tail); }
    }
  }

  lemma {:induction false} IdentityTakes(ts: List)
    ensures var r := IdentityArgument(ts); r.Ok? ==> 2 + EndpointWeight(r.value) + Weight(r.rest) == Weight(ts)
    decreases ts, 1
  {
    Ahead();
    hide ParseAtom, Weight, EndpointWeight;
    if Peek(ts) == LParen && Peek(ts.tail) == Ident("identity") && Peek(ts.tail.tail) == Colon {
      AtomTakes(ts.tail.tail.tail);
    }
  }

  lemma {:induction false} ArmsTake(acc: seq<MatchArm>, sawFallback: bool, ts: List)
    ensures var r := Arms(acc, sawFallback, ts); r.Ok? ==>
              ArmsWeight(r.value) + 1 + Weight(r.rest) == ArmsWeight(acc) + Weight(ts)
    decreases ts, 4
  {
    Ahead();
    hide Guard, ParseMatchTarget, Weight, ArmsWeight, GuardWeight, MatchTargetWeight;
    if Peek(ts) != RBrace && !sawFallback {
      GuardTakes(ts);
      var guard := Guard(ts);
      if guard.Ok? && Peek(guard.rest) == Arrow {
        MatchTargetTakes(guard.rest.tail);
        var target := ParseMatchTarget(guard.rest.tail);
        if target.Ok? {
          var a := MatchArm(guard.value, target.value);
          ArmsGrow(acc, a);
          ArmsTake(acc + [a], guard.value.Fallback?, target.rest);
        }
      }
    }
  }

  lemma {:induction false} GuardTakes(ts: List)
    ensures var r := Guard(ts); r.Ok? ==> GuardWeight(r.value) + Weight(r.rest) == Weight(ts)
    decreases ts, 3
  {
    Ahead();
    hide ParseNodeRef, InlineList, Weight, RefWeight, ItemsWeight;
    NoItems();
    if Peek(ts) != Ident("_") {
      NodeRefTakes(ts);
      var node := ParseNodeRef(ts);
      if node.Ok? && Peek(node.rest) == LParen {
        if Peek(node.rest.tail) != RParen { InlineListTakes([], RParen, node.rest.tail); }
      }
    }
  }

  lemma {:induction false} MatchTargetTakes(ts: List)
    ensures var r := ParseMatchTarget(ts); r.Ok? ==> MatchTargetWeight(r.value) + Weight(r.rest) == Weight(ts)
    decreases ts, 4
  {
    hide ParseNodeRef, ParseInline, Weight, RefWeight, EndpointWeight;
    if Peek(ts).Ident? { NodeRefTakes(ts); } else { InlineTakes(ts); }
  }

  // ---- Declarations ----

  lemma {:induction false} TypeTailTakes(text: TypeText, depth: nat, ts: List)
    ensures var r := TypeTail(text, depth, ts); r.Ok? ==>
              TypeWeight(r.value) + Weight(r.rest) == TypeWeight(text) + Weight(ts)
    decreases ts
  {
    Ahead();
    hide Weight, TypeWeight;
    var t := Peek(ts);
    if ContinuesType(text == [], depth, t) {
      TypeGrows(text, t);
      TypeTailTakes(text + [t], DepthAfter(depth, t), Next(ts));
    }
  }

  lemma TypeTakes(ts: List)
    ensures var r := ParseType(ts); r.Ok? ==> TypeWeight(r.value) + Weight(r.rest) == Weight(ts)
  {
    TypeTailTakes([], 0, ts);
  }

  lemma PortTakes(ts: List)
    ensures var r := ParsePort(ts); r.Ok? ==> 2 + TypeWeight(r.value.ty) + Weight(r.rest) == Weight(ts)
  {
    Ahead();
    hide ParseType, Weight, TypeWeight;
    if Peek(ts).Ident? && Peek(ts.tail) == Colon { TypeTakes(ts.tail.tail); }
  }

  lemma {:induction false} PortTailTakes(acc: seq<Port>, ts: List)
    ensures var r := PortTail(acc, ts); r.Ok? ==> PortsWeight(r.value) + Weight(r.rest) == PortsWeight(acc) + Weight(ts)
    decreases ts
  {
    Ahead();
    hide ParsePort, Weight, PortsWeight;
    if Peek(ts) == Comma {
      PortTakes(ts.tail);
      var port := ParsePort(ts.tail);
      if port.Ok? {
        PortsGrow(acc, port.value);
        PortTailTakes(acc + [port.value], port.rest);
      }
    }
  }

  lemma OnePort(p: Port)
    ensures PortsWeight([p]) == 2 + TypeWeight(p.ty) && PortsWeight([]) == 0
  {}

  lemma PortListTakes(ts: List)
    ensures var r := PortList(ts); r.Ok? ==> PortsWeight(r.value) + Weight(r.rest) == Weight(ts)
  {
    hide ParsePort, PortTail, Weight, PortsWeight;
    PortTakes(ts);
    if ParsePort(ts).Ok? {
      OnePort(ParsePort(ts).value);
      PortTailTakes([ParsePort(ts).value], ParsePort(ts).rest);
    }
  }

  lemma PortOrListTakes(ts: List)
    ensures var r := PortOrList(ts); r.Ok? ==> PortsWeight(r.value) + Weight(r.rest) == Weight(ts)
  {
    Ahead();
    hide ParsePort, PortList, Weight, PortsWeight;
    if Peek(ts) == LParen {
      PortListTakes(ts.tail);
    } else {
      PortTakes(ts);
      if ParsePort(ts).Ok? { OnePort(ParsePort(ts).value); }
    }
  }

  lemma InputsTake(ts: List)
    ensures var r := Inputs(ts); r.Ok? ==> PortsWeight(r.value) + Weight(r.rest) == Weight(ts)
  {
    Ahead();
    hide PortList, Weight;
    if Peek(ts) == LParen && Peek(ts.tail) != RParen { PortListTakes(ts.tail); }
  }

  lemma {:induction false} StructPortsTake(acc: seq<Port>, ts: List)
    ensures var r := StructPorts(acc, ts); r.Ok? ==>
              PortsWeight(r.value) + 1 + Weight(r.rest) == PortsWeight(acc) + Weight(ts)
    decreases ts
  {
    Ahead();
    hide ParsePort, Weight, PortsWeight;
    PortTakes(ts);
    var port := ParsePort(ts);
    if port.Ok? {
      PortsGrow(acc, port.value);
      if Peek(port.rest) == Comma && Peek(Next(port.rest)) != RBrace { StructPortsTake(acc + [port.value], Next(port.rest)); }
    }
  }

  lemma SourceTakes(ts: List)
    ensures var r := ParseSource(ts); r.Ok? ==> SourceWeight(r.value) + Weight(r.rest) == Weight(ts)
  {
    Ahead();
    hide QIdent;
    if Peek(ts).Ident? { QIdentTakes(ts); }
  }

  lemma {:induction false} ImportItemsTake(acc: seq<ImportItem>, ts: List)
    ensures
      var r := ImportItems(acc, ts);
      r.Ok? ==> ImportItemsWeight(r.value) + 1 + Weight(r.rest) == ImportItemsWeight(acc) + Weight(ts)
    decreases ts
  {
    Ahead();
    hide ParseItem, Weight, ImportItemsWeight;
    ItemTakes(ts);
    var item := ParseItem(ts);
    if item.Ok? {
      ImportItemsGrow(acc, item.value);
      if Peek(item.rest) == Comma && Peek(Next(item.rest)) != RBrace { ImportItemsTake(acc + [item.value], Next(item.rest)); }
    }
  }

  lemma ItemTakes(ts: List)
    ensures var r := ParseItem(ts); r.Ok? ==> (if r.value.alias.None? then 1 else 3) + Weight(r.rest) == Weight(ts)
  {
    Ahead();
    hide Weight;
  }

  lemma ForeignNodeTakes(ts: List)
    ensures var r := ParseForeignNode(ts); r.Ok? ==> ForeignNodeWeight(r.value) + Weight(r.rest) == Weight(ts)
  {
    Ahead();
    hide ParseForeignNode, Inputs, PortOrList, QIdent, Weight, PortsWeight;
    if ParseForeignNode(ts).Ok? {
      var ts3, ts4, ts6 := ForeignNodeParts(ts);
      InputsTake(ts3);
      PortOrListTakes(ts4.tail);
      QIdentTakes(ts6.tail);
    }
  }

  /** The three words before the inputs, the arrow before the outputs, and `=` before the symbol. */
  lemma ForeignNodeParts(ts: List) returns (ts3: List, ts4: List, ts6: List)
    requires ParseForeignNode(ts).Ok?
    ensures Peek(ts).Ident? && Peek(ts.tail).Ident? && Peek(ts.tail.tail).Ident? && ts3 == ts.tail.tail.tail
    ensures
      var n, inputs := ParseForeignNode(ts), Inputs(ts3);
      && inputs == Ok(n.value.inputs, ts4) && Peek(ts4) == Arrow && PortOrList(ts4.tail) == Ok(n.value.outputs, ts6)
      && Peek(ts6) == Equal && QIdent(ts6.tail) == Ok(n.value.symbol, n.rest)
  {
    hide Inputs, PortOrList, QIdent;
    ts3 := ts.tail.tail.tail;
    ts4 := Inputs(ts3).rest;
    ts6 := PortOrList(ts4.tail).rest;
  }

  lemma {:induction false} ForeignNodesTake(acc: seq<ForeignNode>, ts: List)
    ensures
      var r := ForeignNodes(acc, ts);
      r.Ok? ==> ForeignNodesWeight(r.value) + 1 + Weight(r.rest) == ForeignNodesWeight(acc) + Weight(ts)
    decreases ts
  {
    Ahead();
    hide ParseForeignNode, Weight, ForeignNodesWeight, ForeignNodeWeight;
    if Peek(ts) != RBrace {
      ForeignNodeTakes(ts);
      var node := ParseForeignNode(ts);
      if node.Ok? {
        ForeignNodesGrow(acc, node.value);
        ForeignNodesTake(acc + [node.value], node.rest);
      }
    }
  }

  lemma ForeignHeadTakes(ts: List)
    ensures var r := ParseForeignHead(ts); r.Ok? ==> OriginWeight(r.value.1) + Weight(r.rest) == Weight(ts)
  {
    Ahead();
    hide Weight;
  }

  lemma ParamTakes(ts: List)
    ensures
      var r := ParseParam(ts);
      r.Ok? ==> 4 + TypeWeight(r.value.input) + TypeWeight(r.value.output) + Weight(r.rest) == Weight(ts)
  {
    Ahead();
    hide ParseType, ParamInput, Weight, TypeWeight;
    if Peek(ts).Ident? && Peek(ts.tail) == Colon && Peek(ts.tail.tail) == Ident("node") {
      var ts3 := ts.tail.tail.tail;
      ParamInputTakes(ts3);
      var input := ParamInput(ts3);
      if input.Ok? && Peek(input.rest) == Arrow { TypeTakes(input.rest.tail); }
    }
  }

  lemma ParamInputTakes(ts: List)
    ensures var r := ParamInput(ts); r.Ok? ==> TypeWeight(r.value) + Weight(r.rest) == Weight(ts)
  {
    Ahead();
    hide ParseType, Weight;
    if Peek(ts) == LParen {
      if Peek(ts.tail) == RParen {
        assert [LParen, RParen][1..] == [RParen];
        assert TypeWeight([LParen, RParen]) == 0;
      } else {
        TypeTakes(ts.tail);
      }
    }
  }

  lemma {:induction false} NodeParamsTake(acc: seq<NodeParam>, ts: List)
    ensures var r := NodeParams(acc, ts); r.Ok? ==>
              r.value != [] && ParamsWeight(r.value) + 1 + Weight(r.rest) == ParamsWeight(acc) + Weight(ts)
    decreases ts
  {
    Ahead();
    hide ParseParam, Weight, ParamsWeight;
    ParamTakes(ts);
    var param := ParseParam(ts);
    if param.Ok? {
      ParamsGrow(acc, param.value);
      if Peek(param.rest) == Comma && Peek(Next(param.rest)) != Greater { NodeParamsTake(acc + [param.value], Next(param.rest)); }
    }
  }

  lemma ParseNodeParamsTake(ts: List)
    ensures var r := ParseNodeParams(ts); r.Ok? ==> ParamListWeight(r.value) + Weight(r.rest) == Weight(ts)
  {
    Ahead();
    hide NodeParams;
    if Peek(ts) == Less && Peek(ts.tail) != Greater { NodeParamsTake([], ts.tail); }
  }

  lemma {:induction false} ChainsTake(acc: seq<Chain>, ts: List)
    ensures var r := Chains(acc, ts); r.Ok? ==> ChainsWeight(r.value) + 1 + Weight(r.rest) == ChainsWeight(acc) + Weight(ts)
    decreases ts
  {
    Ahead();
    hide ParseChain, Weight, ChainsWeight;
    if Peek(ts) != RBrace {
      ChainTakes(ts);
      var chain := ParseChain(ts);
      if chain.Ok? {
        ChainsGrow(acc, chain.value);
        ChainsTake(acc + [chain.value], chain.rest);
      }
    }
  }

  lemma ChainTakes(ts: List)
    ensures
      var r := ParseChain(ts);
      r.Ok? ==> EndpointWeight(r.value.source) + StagesWeight(r.value.stages) + Weight(r.rest) == Weight(ts)
  {
    hide ParseAtom, Stages, Weight, EndpointWeight;
    AtomTakes(ts);
    if ParseAtom(ts).Ok? { StagesTake([], ParseAtom(ts).rest); }
  }

  lemma CallableTakes(isExtern: bool, ts: List)
    ensures
      var r := ParseCallable(isExtern, ts);
      r.Ok? ==> r.value.isExtern == isExtern && CallableWeight(r.value) + Weight(r.rest) == Weight(ts)
  {
    Ahead();
    hide ParseNodeParams, Inputs, PortOrList, Chains, Weight, ParamsWeight, PortsWeight, ChainsWeight;
    NoParams();
    if Peek(ts).Ident? {
      ParseNodeParamsTake(ts.tail);
      var params := ParseNodeParams(ts.tail);
      if params.Ok? {
        InputsTake(params.rest);
        var inputs := Inputs(params.rest);
        if inputs.Ok? && Peek(inputs.rest) == Arrow {
          PortOrListTakes(inputs.rest.tail);
          var outputs := PortOrList(inputs.rest.tail);
          if outputs.Ok? && Peek(outputs.rest) == LBrace { BlockTakes(outputs.rest.tail); }
        }
      }
    }
  }

  lemma BlockTakes(ts: List)
    ensures var r := Chains([], ts); r.Ok? ==> ChainsWeight(r.value) + 1 + Weight(r.rest) == Weight(ts)
  {
    ChainsTake([], ts);
  }

  lemma AliasTakes(ts: List)
    ensures var r := ParseAlias(ts); r.Ok? ==> DeclWeight(r.value) + Weight(r.rest) == Weight(ts) + 1
  {
    Ahead();
    hide ParseType, Weight, TypeWeight;
    if Peek(ts).Ident? && Peek(ts.tail) == Equal { TypeTakes(ts.tail.tail); }
  }

  lemma StructTakes(ts: List)
    ensures var r := ParseStruct(ts); r.Ok? ==> DeclWeight(r.value) + Weight(r.rest) == Weight(ts) + 1
  {
    Ahead();
    hide StructPorts, Weight;
    if Peek(ts).Ident? && Peek(ts.tail) == LBrace { StructPortsTake([], ts.tail.tail); }
  }

  lemma ImportTakes(ts: List)
    ensures var r := ParseImport(ts); r.Ok? ==> DeclWeight(r.value) + Weight(r.rest) == Weight(ts) + 1
  {
    Ahead();
    hide ParseSource, ImportItems, Weight, SourceWeight;
    SourceTakes(ts);
    var source := ParseSource(ts);
    if source.Ok? && Peek(source.rest) == LBrace { ImportItemsTake([], source.rest.tail); }
  }

  lemma ForeignTakes(ts: List)
    ensures var r := ParseForeign(ts); r.Ok? ==> DeclWeight(r.value) + Weight(r.rest) == Weight(ts) + 1
  {
    Ahead();
    hide ParseForeignHead, ForeignNodes, Weight, OriginWeight;
    ForeignHeadTakes(ts);
    var head := ParseForeignHead(ts);
    if head.Ok? && Peek(head.rest) == LBrace { ForeignNodesTake([], head.rest.tail); }
  }

  lemma DeclTakes(ts: List)
    ensures var r := ParseDecl(ts); r.Ok? ==> DeclWeight(r.value) + Weight(r.rest) == Weight(ts)
  {
    Ahead();
    hide ParseAlias, ParseStruct, ParseImport, ParseForeign, ParseCallable, CallableWeight, Weight;
    if Peek(ts).Ident? {
      var word := ts.head.name;
      if word == "type" {
        AliasTakes(ts.tail);
      } else if word == "struct" {
        StructTakes(ts.tail);
      } else if word == "import" {
        ImportTakes(ts.tail);
      } else if word == "foreign" {
        ForeignTakes(ts.tail);
      } else if word == "extern" {
        if Peek(ts.tail) == Ident("node") { CallableTakes(true, ts.tail.tail); }
      } else {
        CallableTakes(false, ts.tail);
      }
    }
  }

  lemma {:induction false} DeclsTake(acc: seq<Decl>, ts: List)
    ensures var r := Decls(acc, ts); r.Ok? ==> DeclsWeight(r.value) == DeclsWeight(acc) + Weight(ts)
    decreases ts
  {
    Unfold();
    hide ParseDecl, Weight, DeclsWeight, DeclWeight;
    if ts.Cons? {
      DeclTakes(ts);
      var decl := ParseDecl(ts);
      if decl.Ok? {
        DeclsGrow(acc, decl.value);
        DeclsTake(acc + [decl.value], decl.rest);
      }
    }
  }

  /** A module has the weight of the tokens it was parsed from, however its imports are written. */
  lemma ModuleTakes(ts: List, lastComma: seq<bool>)
    requires ParseModule(ts).Some? && |lastComma| == |ParseModule(ts).value.declarations|
    ensures Weight(TkDecls(ParseModule(ts).value.declarations, lastComma)) == Weight(ts)
  {
    DeclsTake([], ts);
    DeclsCount(ParseModule(ts).value.declarations, lastComma);
  }
}
