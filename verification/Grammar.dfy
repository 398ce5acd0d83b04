/**
 * The grammar, rule by rule: `XIn(x, ts, k)` says that the tokens from `ts` up to the rest `k` spell `x`. Lists of
 * names, stages and ports go on as long as they can.
 */
module Grammar {
  import opened Tokens
  import opened Ast
  import opened Parsing
  import opened WellFormed

  // ---- Tokens ----

  predicate Starts(t: Token, ts: List) { ts.Cons? && ts.head == t }

  /** The token, and then the rest. */
  predicate One(t: Token, ts: List, k: List) { ts == Cons(t, k) }

  /** The closing token, with or without a comma before it. */
  predicate Closes(close: Token, ts: List, k: List) { ts == Cons(close, k) || ts == Cons(Comma, Cons(close, k)) }

  predicate IsIdentFirst(ts: List) { ts.Cons? && ts.head.Ident? }

  // ---- Names ----

  /** `.name`, as often as there are dots. */
  predicate SegmentsIn(q: QName, ts: List, k: List)
    decreases |q|
  {
    if q == [] then ts == k && Peek(k) != Dot
    else Starts(Dot, ts) && Starts(Ident(q[0]), ts.tail) && SegmentsIn(q[1..], ts.tail.tail, k)
  }

  predicate NameIn(q: QName, ts: List, k: List)
  {
    q != [] && Starts(Ident(q[0]), ts) && SegmentsIn(q[1..], ts.tail, k)
  }

  ghost predicate ArgumentsIn(args: seq<QName>, ts: List, k: List)
    decreases |args|
  {
    args != [] && exists mid: List ::
      && NameIn(args[0], ts, mid)
      && if |args| == 1 then Closes(Greater, mid, k) else Starts(Comma, mid) && ArgumentsIn(args[1..], mid.tail, k)
  }

  ghost predicate ReferenceIn(r: NodeRef, ts: List, k: List)
  {
    if r.args == [] then NameIn(r.base, ts, k) && Peek(k) != Less
    else exists mid: List :: NameIn(r.base, ts, mid) && Starts(Less, mid) && ArgumentsIn(r.args, mid.tail, k)
  }

  // ---- Binding targets ----

  ghost predicate TargetIn(t: BindingTarget, ts: List, k: List)
    decreases t, 0
  {
    match t
    case Drop => One(Discard, ts, k)
    case Bound(x) => One(Token.Variable(x), ts, k)
    case Both(items) =>
      |items| >= 2 && Starts(LParen, ts) && exists mid: List, end: List ::
        TargetIn(items[0], ts.tail, mid) && MoreTargetsIn(items[1..], mid, end) && One(RParen, end, k)
  }

  ghost predicate MoreTargetsIn(items: seq<BindingTarget>, ts: List, k: List)
    decreases items, 0
  {
    if items == [] then ts == k && Peek(k) != Comma
    else
      Starts(Comma, ts) && exists mid: List :: TargetIn(items[0], ts.tail, mid) && MoreTargetsIn(items[1..], mid, k)
  }

  // ---- Endpoints, stages and arms ----

  ghost predicate AtomIn(e: Endpoint, ts: List, k: List)
    decreases e, 0
  {
    match e
    case Variable(x) => One(Token.Variable(x), ts, k)
    case Name(_) => false
    case Int(n) => One(Token.Int(n), ts, k)
    case Real(text) => One(Token.Real(text), ts, k)
    case RealF32(text) => One(Token.RealF32(text), ts, k)
    case Bool(b) => One(Token.Bool(b), ts, k)
    case Str(s) => One(Token.Str(s), ts, k)
    case Unit => Starts(LParen, ts) && One(RParen, ts.tail, k)
    case Tuple(items) =>
      |items| >= 2 && Starts(LParen, ts) && exists mid: List, end: List ::
        InlineIn(items[0], ts.tail, mid) && MoreItemsIn(items[1..], mid, end) && One(RParen, end, k)
    case Seq(items) =>
      Starts(LBracket, ts)
      && if items == [] then One(RBracket, ts.tail, k) else ItemsIn(items, RBracket, ts.tail, k)
    case Struct(name, fields) => Starts(Ident(name), ts) && Starts(LBrace, ts.tail) && FieldsIn(fields, ts.tail.tail, k)
    case Eval(_, _) => false
  }

  /** An endpoint with the stages behind it. */
  ghost predicate InlineIn(e: Endpoint, ts: List, k: List)
    decreases e, 1
  {
    if e.Eval? then e.stages != [] && exists mid: List :: AtomIn(e.source, ts, mid) && StagesIn(e.stages, mid, k)
    else AtomIn(e, ts, k) && Peek(k) != Arrow
  }

  ghost predicate MoreItemsIn(items: seq<Endpoint>, ts: List, k: List)
    decreases items, 0
  {
    if items == [] then ts == k && Peek(k) != Comma
    else
      Starts(Comma, ts) && exists mid: List :: InlineIn(items[0], ts.tail, mid) && MoreItemsIn(items[1..], mid, k)
  }

  /** Items up to the closing token, which may have a comma before it. */
  ghost predicate ItemsIn(items: seq<Endpoint>, close: Token, ts: List, k: List)
    decreases items, 0
  {
    items != [] && exists mid: List ::
      && InlineIn(items[0], ts, mid)
      && if |items| == 1 then Closes(close, mid, k) else Starts(Comma, mid) && ItemsIn(items[1..], close, mid.tail, k)
  }

  ghost predicate FieldsIn(fields: seq<Field>, ts: List, k: List)
    decreases fields, 0
  {
    fields != [] && Starts(Ident(fields[0].name), ts) && Starts(Colon, ts.tail) && exists mid: List ::
      && InlineIn(fields[0].value, ts.tail.tail, mid)
      && if |fields| == 1 then Closes(RBrace, mid, k) else Starts(Comma, mid) && FieldsIn(fields[1..], mid.tail, k)
  }

  ghost predicate StagesIn(stages: seq<Stage>, ts: List, k: List)
    decreases stages, 0
  {
    if stages == [] then ts == k && Peek(k) != Arrow
    else
      Starts(Arrow, ts) && exists mid: List :: StageIn(stages[0], ts.tail, mid) && StagesIn(stages[1..], mid, k)
  }

  ghost predicate StageIn(s: Stage, ts: List, k: List)
    decreases s, 0
  {
    match s
    case Value(e) =>
      if e.Name? then e.node.base != [] && !IsStageWord(e.node.base[0]) && ReferenceIn(e.node, ts, k)
      else AtomIn(e, ts, k) && !e.Variable? && !e.Unit? && !e.Tuple? && !e.Struct?
    case Bind(t) => TargetIn(t, ts, k)
    case Map(r) => Starts(Ident("map"), ts) && ReferenceIn(r, ts.tail, k)
    case FaultMap(r, ok, fault) =>
      && Starts(Ident("fault"), ts) && Starts(Ident("map"), ts.tail)
      && ReferenceIn(r, ts.tail.tail, Cons(LBrace, TkOutcomes(ok, fault, k)))
    case Filter(r) => Starts(Ident("filter"), ts) && ReferenceIn(r, ts.tail, k)
    case FieldOf(f) => Starts(Ident("field"), ts) && One(Ident(f), ts.tail, k)
    case Repeat(count, r) =>
      Starts(Ident("repeat"), ts) && Starts(Less, ts.tail) && (count.Variable? || count.Int?) && exists mid: List ::
        AtomIn(count, ts.tail.tail, mid) && Starts(Greater, mid) && ReferenceIn(r, mid.tail, k)
    case Reduce(r, identity) => Starts(Ident("reduce"), ts) && FoldIn(r, identity, ts.tail, k)
    case Scan(r, identity) => Starts(Ident("scan"), ts) && FoldIn(r, identity, ts.tail, k)
    case Match(arms) => Starts(Ident("match"), ts) && Starts(LBrace, ts.tail) && ArmsIn(arms, ts.tail.tail, k)
  }

  /** `node(identity: value)`. */
  ghost predicate FoldIn(r: NodeRef, identity: Endpoint, ts: List, k: List)
    decreases identity, 2
  {
    exists mid: List :: ReferenceIn(r, ts, mid) && IdentityIn(identity, mid, k)
  }

  ghost predicate IdentityIn(identity: Endpoint, ts: List, k: List)
    decreases identity, 1
  {
    Starts(LParen, ts) && Starts(Ident("identity"), ts.tail) && Starts(Colon, ts.tail.tail) && exists mid: List ::
      AtomIn(identity, ts.tail.tail.tail, mid) && One(RParen, mid, k)
  }

  /** The last arm, and only that, is the fallback. */
  ghost predicate ArmsIn(arms: seq<MatchArm>, ts: List, k: List)
    decreases arms, 0
  {
    arms != [] && (arms[0].guard.Fallback? <==> |arms| == 1) && exists mid: List ::
      ArmIn(arms[0], ts, mid) && if |arms| == 1 then One(RBrace, mid, k) else ArmsIn(arms[1..], mid, k)
  }

  ghost predicate ArmIn(arm: MatchArm, ts: List, k: List)
    decreases arm, 0
  {
    exists mid: List :: GuardIn(arm.guard, ts, mid) && Starts(Arrow, mid) && ArmTargetIn(arm.target, mid.tail, k)
  }

  ghost predicate GuardIn(g: MatchGuard, ts: List, k: List)
    decreases g, 0
  {
    match g
    case Fallback => One(Ident("_"), ts, k)
    case Call(r, args) =>
      r.base != [] && r.base[0] != "_" && exists mid: List ::
        && ReferenceIn(r, ts, mid) && Starts(LParen, mid)
        && if args == [] then One(RParen, mid.tail, k) else ItemsIn(args, RParen, mid.tail, k)
  }

  /** An identifier is read as a node. */
  ghost predicate ArmTargetIn(t: MatchTarget, ts: List, k: List)
    decreases t, 0
  {
    match t
    case ToNode(r) => ReferenceIn(r, ts, k)
    case ToValue(e) => InlineIn(e, ts, k) && !IsIdentFirst(ts)
  }

  // ---- Types and ports ----

  function DepthOf(ty: TypeText): int
    decreases |ty|
  {
    if ty == [] then 0
    else
      var t := ty[|ty| - 1];
      DepthOf(ty[..|ty| - 1])
      + (if t == LParen || t == LBracket then 1 else if t == RParen || t == RBracket then -1 else 0)
  }

  /** Declarations begin with these words. */
  predicate BeginsDeclaration(t: Token)
  {
    t.Ident? && t.name in {"type", "struct", "import", "foreign", "extern", "node", "program"}
  }

  /** What may stand in a type, first or later, inside so many brackets. */
  predicate InType(t: Token, first: bool, depth: int)
  {
    || t.Int? || t == LParen || t == LBracket || t == Pipe || t == Dot
    || (t.Ident? && (first || depth > 0 || !BeginsDeclaration(t)))
    || (depth > 0 && (t == RParen || t == RBracket || t == Comma))
  }

  /** Brackets are closed as often as they are opened, whatever their kind. */
  predicate IsTypeText(ty: TypeText)
  {
    ty != [] && DepthOf(ty) == 0 && forall i :: 0 <= i < |ty| ==> InType(ty[i], i == 0, DepthOf(ty[..i]))
  }

  predicate EndsType(t: Token)
  {
    || t == Comma || t == Equal || t == RParen || t == LBrace || t == RBrace || t == Greater || t == Eof
    || BeginsDeclaration(t)
  }

  predicate TypeIn(ty: TypeText, ts: List, k: List) { IsTypeText(ty) && ts == TkType(ty, k) && EndsType(Peek(k)) }

  predicate PortIn(p: Port, ts: List, k: List)
  {
    Starts(Ident(p.name), ts) && Starts(Colon, ts.tail) && TypeIn(p.ty, ts.tail.tail, k)
  }

  ghost predicate MorePortsIn(ps: seq<Port>, ts: List, k: List)
    decreases |ps|
  {
    if ps == [] then ts == k && Peek(k) != Comma
    else Starts(Comma, ts) && exists mid: List :: PortIn(ps[0], ts.tail, mid) && MorePortsIn(ps[1..], mid, k)
  }

  /** Ports in parentheses. */
  ghost predicate PortListIn(ps: seq<Port>, ts: List, k: List)
  {
    ps != [] && Starts(LParen, ts) && exists mid: List, end: List ::
      PortIn(ps[0], ts.tail, mid) && MorePortsIn(ps[1..], mid, end) && One(RParen, end, k)
  }

  ghost predicate InputsIn(ps: seq<Port>, ts: List, k: List)
  {
    if ps == [] then Starts(LParen, ts) && One(RParen, ts.tail, k) else PortListIn(ps, ts, k)
  }

  /** A single port needs no parentheses. */
  ghost predicate OutputsIn(ps: seq<Port>, ts: List, k: List)
  {
    PortListIn(ps, ts, k) || (|ps| == 1 && PortIn(ps[0], ts, k))
  }

  // ---- Declarations ----

  ghost predicate StructPortsIn(ps: seq<Port>, ts: List, k: List)
    decreases |ps|
  {
    ps != [] && exists mid: List ::
      && PortIn(ps[0], ts, mid)
      && if |ps| == 1 then Closes(RBrace, mid, k) else Starts(Comma, mid) && StructPortsIn(ps[1..], mid.tail, k)
  }

  predicate SourceIn(source: ImportSource, ts: List, k: List)
  {
    match source
    case FromFile(path) => One(Token.Str(path), ts, k)
    case FromModule(q) => NameIn(q, ts, k)
  }

  predicate ItemIn(item: ImportItem, ts: List, k: List)
  {
    Starts(Ident(item.name), ts)
    && if item.alias.None? then ts.tail == k && !Starts(Ident("as"), k)
       else Starts(Ident("as"), ts.tail) && One(Ident(item.alias.value), ts.tail.tail, k)
  }

  ghost predicate ImportItemsIn(items: seq<ImportItem>, ts: List, k: List)
    decreases |items|
  {
    items != [] && exists mid: List ::
      && ItemIn(items[0], ts, mid)
      && if |items| == 1 then Closes(RBrace, mid, k) else Starts(Comma, mid) && ImportItemsIn(items[1..], mid.tail, k)
  }

  ghost predicate ClauseIn(clause: ImportClause, ts: List, k: List)
  {
    match clause
    case As(alias) => Starts(Ident("as"), ts) && One(Ident(alias), ts.tail, k)
    case Items(items) => Starts(LBrace, ts) && ImportItemsIn(items, ts.tail, k)
  }

  predicate OriginIn(language: ForeignTarget, origin: ForeignSource, ts: List, k: List)
  {
    match origin
    case JsModule(text) =>
      language == Js && ts == Cons(Ident("js"), Cons(Ident("module"), Cons(Token.Str(text), k)))
    case JsGlobal(text) =>
      language == Js && ts == Cons(Ident("js"), Cons(Ident("global"), Cons(Token.Str(text), k)))
    case CHeader(header, file) =>
      var rest := if file.None? then k else Cons(Ident("source"), Cons(Token.Str(file.value), k));
      && language == C && ts == Cons(Ident("c"), Cons(Ident("header"), Cons(Token.Str(header), rest)))
      && (file.None? ==> !Starts(Ident("source"), k))
  }

  ghost predicate ForeignNodeIn(n: ForeignNode, ts: List, k: List)
  {
    Starts(Ident(if n.effect == Pure then "pure" else "io"), ts) && Starts(Ident("node"), ts.tail)
    && Starts(Ident(n.name), ts.tail.tail)
    && exists a: List, b: List ::
         && InputsIn(n.inputs, ts.tail.tail.tail, a) && Starts(Arrow, a)
         && OutputsIn(n.outputs, a.tail, b) && Starts(Equal, b) && NameIn(n.symbol, b.tail, k)
  }

  ghost predicate ForeignNodesIn(ns: seq<ForeignNode>, ts: List, k: List)
    decreases |ns|
  {
    ns != [] && exists mid: List ::
      ForeignNodeIn(ns[0], ts, mid) && if |ns| == 1 then One(RBrace, mid, k) else ForeignNodesIn(ns[1..], mid, k)
  }

  /** `name: node(input) -> output`; no input is the type `()`. */
  ghost predicate ParamIn(p: NodeParam, ts: List, k: List)
  {
    Starts(Ident(p.name), ts) && Starts(Colon, ts.tail) && Starts(Ident("node"), ts.tail.tail)
    && exists mid: List ::
         ParamInputIn(p.input, ts.tail.tail.tail, mid) && Starts(Arrow, mid) && TypeIn(p.output, mid.tail, k)
  }

  ghost predicate ParamInputIn(ty: TypeText, ts: List, k: List)
  {
    Starts(LParen, ts)
    && if Starts(RParen, ts.tail) then ty == [LParen, RParen] && One(RParen, ts.tail, k)
       else exists mid: List :: TypeIn(ty, ts.tail, mid) && One(RParen, mid, k)
  }

  ghost predicate ParamListIn(ps: seq<NodeParam>, ts: List, k: List)
    decreases |ps|
  {
    ps != [] && exists mid: List ::
      && ParamIn(ps[0], ts, mid)
      && if |ps| == 1 then Closes(Greater, mid, k) else Starts(Comma, mid) && ParamListIn(ps[1..], mid.tail, k)
  }

  ghost predicate ParamsIn(ps: seq<NodeParam>, ts: List, k: List)
  {
    if ps == [] then ts == k && Peek(k) != Less else Starts(Less, ts) && ParamListIn(ps, ts.tail, k)
  }

  ghost predicate ChainIn(c: Chain, ts: List, k: List)
  {
    c.stages != [] && exists mid: List :: AtomIn(c.source, ts, mid) && StagesIn(c.stages, mid, k)
  }

  ghost predicate ChainsIn(cs: seq<Chain>, ts: List, k: List)
    decreases |cs|
  {
    if cs == [] then One(RBrace, ts, k)
    else exists mid: List :: ChainIn(cs[0], ts, mid) && ChainsIn(cs[1..], mid, k)
  }

  ghost predicate CallableIn(c: Callable, ts: List, k: List)
  {
    Starts(Ident(c.name), ts) && exists a: List, b: List, d: List ::
      && ParamsIn(c.nodeParams, ts.tail, a) && InputsIn(c.inputs, a, b) && Starts(Arrow, b)
      && OutputsIn(c.outputs, b.tail, d) && Starts(LBrace, d) && ChainsIn(c.chains, d.tail, k)
  }

  ghost predicate DeclIn(d: Decl, ts: List, k: List)
  {
    match d
    case TypeAlias(alias, ty) =>
      && Starts(Ident("type"), ts) && Starts(Ident(alias), ts.tail) && Starts(Equal, ts.tail.tail)
      && TypeIn(ty, ts.tail.tail.tail, k)
    case StructDecl(name, fields) =>
      && Starts(Ident("struct"), ts) && Starts(Ident(name), ts.tail) && Starts(LBrace, ts.tail.tail)
      && StructPortsIn(fields, ts.tail.tail.tail, k)
    case Import(source, clause) =>
      Starts(Ident("import"), ts) && exists mid: List :: SourceIn(source, ts.tail, mid) && ClauseIn(clause, mid, k)
    case Foreign(language, origin, nodes) =>
      Starts(Ident("foreign"), ts) && exists mid: List ::
        OriginIn(language, origin, ts.tail, mid) && Starts(LBrace, mid) && ForeignNodesIn(nodes, mid.tail, k)
    case Node(c) =>
      if c.isExtern then Starts(Ident("extern"), ts) && Starts(Ident("node"), ts.tail) && CallableIn(c, ts.tail.tail, k)
      else Starts(Ident("node"), ts) && CallableIn(c, ts.tail, k)
    case Program(c) => !c.isExtern && Starts(Ident("program"), ts) && CallableIn(c, ts.tail, k)
  }

  ghost predicate DeclsIn(ds: seq<Decl>, ts: List)
    decreases |ds|
  {
    if ds == [] then ts == Nil else exists mid: List :: DeclIn(ds[0], ts, mid) && DeclsIn(ds[1..], mid)
  }
}
