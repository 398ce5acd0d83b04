/** The trees src/parser.rs can return, and the token sequence that src/fmt.rs means to write for each. */
module WellFormed {
  import opened Tokens
  import opened Ast
  import opened Parsing

  // ---- Names and types ----

  predicate WfQName(q: QName) { q != [] && forall i :: 0 <= i < |q| ==> IsIdent(q[i]) }

  predicate WfRef(r: NodeRef)
  {
    WfQName(r.base) && forall i :: 0 <= i < |r.args| ==> WfQName(r.args[i])
  }

  /** A type text that reads on to its end from inside `depth` brackets. */
  predicate TypeReads(empty: bool, depth: nat, ty: TypeText)
    decreases |ty|
  {
    if ty == [] then !empty && depth == 0
    else
      && Lexable(ty[0])
      && ContinuesType(empty, depth, ty[0])
      && TypeReads(false, DepthAfter(depth, ty[0]), ty[1..])
  }

  predicate WfType(ty: TypeText) { TypeReads(true, 0, ty) }

  // ---- Endpoints, stages and arms ----

  predicate WfAtom(e: Endpoint)
    decreases e, 0
  {
    match e
    case Variable(n) => IsWord(n)
    case Name(_) => false
    case Int(n) => IsI64(n)
    case Real(text) => IsRealText(text)
    case RealF32(text) => IsRealText(text)
    case Bool(_) => true
    case Str(_) => true
    case Unit => true
    case Tuple(items) => |items| >= 2 && WfItems(items)
    case Seq(items) => WfItems(items)
    case Struct(n, fields) => IsIdent(n) && fields != [] && WfFields(fields)
    case Eval(_, _) => false
  }

  predicate WfInline(e: Endpoint)
    decreases e, 1
  {
    if e.Eval? then WfAtom(e.source) && e.stages != [] && WfStages(e.stages) else WfAtom(e)
  }

  predicate WfItems(items: seq<Endpoint>)
    decreases items
  {
    items == [] || (WfInline(items[0]) && WfItems(items[1..]))
  }

  predicate WfFields(fields: seq<Field>)
    decreases fields
  {
    fields == [] || (IsIdent(fields[0].name) && WfInline(fields[0].value) && WfFields(fields[1..]))
  }

  predicate WfStages(stages: seq<Stage>)
    decreases stages
  {
    stages == [] || (WfStage(stages[0]) && WfStages(stages[1..]))
  }

  predicate WfStage(s: Stage)
    decreases s, 0
  {
    match s
    case Value(e) =>
      if e.Name? then WfRef(e.node) && !IsStageWord(e.node.base[0])
      else WfAtom(e) && !e.Variable? && !e.Unit? && !e.Tuple? && !e.Struct?
    case Bind(t) => WfTarget(t)
    case Map(r) => WfRef(r)
    case FaultMap(r, ok, fault) => WfRef(r) && IsWord(ok) && IsWord(fault)
    case Filter(r) => WfRef(r)
    case FieldOf(n) => IsIdent(n)
    case Repeat(count, r) => (count.Variable? || count.Int?) && WfAtom(count) && WfRef(r)
    case Reduce(r, identity) => WfRef(r) && WfAtom(identity)
    case Scan(r, identity) => WfRef(r) && WfAtom(identity)
    case Match(arms) => WfArms(arms)
  }

  predicate WfTarget(t: BindingTarget)
    decreases t, 0
  {
    match t
    case Drop => true
    case Bound(n) => IsWord(n)
    case Both(items) => |items| >= 2 && WfTargets(items)
  }

  predicate WfTargets(items: seq<BindingTarget>)
    decreases items
  {
    items == [] || (WfTarget(items[0]) && WfTargets(items[1..]))
  }

  /** Calls, then one fallback. */
  predicate WfArms(arms: seq<MatchArm>)
    decreases arms
  {
    && arms != []
    && WfArm(arms[0])
    && (arms[0].guard.Fallback? <==> |arms| == 1)
    && (|arms| == 1 || WfArms(arms[1..]))
  }

  predicate WfArm(arm: MatchArm)
    decreases arm, 0
  {
    WfGuard(arm.guard) && WfMatchTarget(arm.target)
  }

  predicate WfGuard(g: MatchGuard)
    decreases g, 0
  {
    g.Call? ==> WfRef(g.node) && g.node.base[0] != "_" && WfItems(g.args)
  }

  /** A value target does not start with a struct literal: its name would be read as a node. */
  predicate WfMatchTarget(t: MatchTarget)
    decreases t, 0
  {
    match t
    case ToNode(r) => WfRef(r)
    case ToValue(e) => WfInline(e) && !e.Struct? && !(e.Eval? && e.source.Struct?)
  }

  // ---- Declarations ----

  predicate WfPort(p: Port) { IsIdent(p.name) && WfType(p.ty) }

  predicate WfPorts(ps: seq<Port>) { forall i :: 0 <= i < |ps| ==> WfPort(ps[i]) }

  predicate WfParam(p: NodeParam) { IsIdent(p.name) && WfType(p.input) && WfType(p.output) }

  predicate WfChain(c: Chain) { WfAtom(c.source) && c.stages != [] && WfStages(c.stages) }

  predicate WfCallable(c: Callable)
  {
    && IsIdent(c.name)
    && (forall i :: 0 <= i < |c.nodeParams| ==> WfParam(c.nodeParams[i]))
    && WfPorts(c.inputs)
    && c.outputs != [] && WfPorts(c.outputs)
    && (forall i :: 0 <= i < |c.chains| ==> WfChain(c.chains[i]))
  }

  predicate WfItem(i: ImportItem) { IsIdent(i.name) && (i.alias.Some? ==> IsIdent(i.alias.value)) }

  predicate WfForeignNode(n: ForeignNode)
  {
    IsIdent(n.name) && WfPorts(n.inputs) && n.outputs != [] && WfPorts(n.outputs) && WfQName(n.symbol)
  }

  predicate WfDecl(d: Decl)
  {
    match d
    case TypeAlias(n, ty) => IsIdent(n) && WfType(ty)
    case StructDecl(n, fields) => IsIdent(n) && fields != [] && WfPorts(fields)
    case Import(source, clause) =>
      && (source.FromModule? ==> WfQName(source.path))
      && match clause {
           case As(n) => IsIdent(n)
           case Items(items) => items != [] && forall i :: 0 <= i < |items| ==> WfItem(items[i])
         }
    case Foreign(language, origin, nodes) =>
      && (language.C? <==> origin.CHeader?)
      && nodes != []
      && forall i :: 0 <= i < |nodes| ==> WfForeignNode(nodes[i])
    case Node(c) => WfCallable(c)
    case Program(c) => WfCallable(c) && !c.isExtern
  }

  predicate WfModule(m: Module)
  {
    forall i :: 0 <= i < |m.declarations| ==> WfDecl(m.declarations[i])
  }

  // ---- The tokens of a tree, followed by `k` ----

  function TkSegments(q: QName, k: List): List
  {
    if q == [] then k else Cons(Dot, Cons(Ident(q[0]), TkSegments(q[1..], k)))
  }

  function TkQName(q: QName, k: List): List
  {
    if q == [] then k else Cons(Ident(q[0]), TkSegments(q[1..], k))
  }

  function TkArgs(args: seq<QName>, k: List): List
  {
    if args == [] then k
    else TkQName(args[0], if |args| == 1 then k else Cons(Comma, TkArgs(args[1..], k)))
  }

  function TkRef(r: NodeRef, k: List): List
  {
    TkQName(r.base, if r.args == [] then k else Cons(Less, TkArgs(r.args, Cons(Greater, k))))
  }

  function TkEndpoint(e: Endpoint, k: List): List
    decreases e, 0
  {
    match e
    case Variable(n) => Cons(Token.Variable(n), k)
    case Name(r) => TkRef(r, k)
    case Int(n) => Cons(Token.Int(n), k)
    case Real(text) => Cons(Token.Real(text), k)
    case RealF32(text) => Cons(Token.RealF32(text), k)
    case Bool(b) => Cons(Token.Bool(b), k)
    case Str(s) => Cons(Token.Str(s), k)
    case Unit => Cons(LParen, Cons(RParen, k))
    case Tuple(items) => Cons(LParen, TkItems(items, Cons(RParen, k)))
    case Seq(items) => Cons(LBracket, TkItems(items, Cons(RBracket, k)))
    case Struct(n, fields) => Cons(Ident(n), Cons(LBrace, TkFields(fields, Cons(RBrace, k))))
    case Eval(source, stages) => TkEndpoint(source, TkStages(stages, k))
  }

  function TkItems(items: seq<Endpoint>, k: List): List
    decreases items
  {
    if items == [] then k
    else TkEndpoint(items[0], if |items| == 1 then k else Cons(Comma, TkItems(items[1..], k)))
  }

  function TkFields(fields: seq<Field>, k: List): List
    decreases fields
  {
    if fields == [] then k
    else
      Cons(Ident(fields[0].name), Cons(Colon,
        TkEndpoint(fields[0].value, if |fields| == 1 then k else Cons(Comma, TkFields(fields[1..], k)))))
  }

  function TkStages(stages: seq<Stage>, k: List): List
    decreases stages
  {
    if stages == [] then k else Cons(Arrow, TkStage(stages[0], TkStages(stages[1..], k)))
  }

  function TkStage(s: Stage, k: List): List
    decreases s
  {
    match s
    case Value(e) => TkEndpoint(e, k)
    case Bind(t) => TkTarget(t, k)
    case Map(r) => Cons(Ident("map"), TkRef(r, k))
    case FaultMap(r, ok, fault) => Cons(Ident("fault"), TkFaultMap(r, ok, fault, k))
    case Filter(r) => Cons(Ident("filter"), TkRef(r, k))
    case FieldOf(n) => Cons(Ident("field"), Cons(Ident(n), k))
    case Repeat(count, r) => Cons(Ident("repeat"), Cons(Less, TkEndpoint(count, Cons(Greater, TkRef(r, k)))))
    case Reduce(r, identity) => Cons(Ident("reduce"), TkRef(r, TkIdentity(identity, k)))
    case Scan(r, identity) => Cons(Ident("scan"), TkRef(r, TkIdentity(identity, k)))
    case Match(arms) => Cons(Ident("match"), Cons(LBrace, TkArms(arms, Cons(RBrace, k))))
  }

  function TkFaultMap(r: NodeRef, ok: string, fault: string, k: List): List
  {
    Cons(Ident("map"), TkRef(r, Cons(LBrace, TkOutcomes(ok, fault, k))))
  }

  function TkOutcomes(ok: string, fault: string, k: List): List
  {
    var faultPart := Cons(Ident("fault"), Cons(Arrow, Cons(Token.Variable(fault), Cons(RBrace, k))));
    Cons(Ident("ok"), Cons(Arrow, Cons(Token.Variable(ok), Cons(Comma, faultPart))))
  }

  function TkIdentity(identity: Endpoint, k: List): List
    decreases identity, 1
  {
    Cons(LParen, Cons(Ident("identity"), Cons(Colon, TkEndpoint(identity, Cons(RParen, k)))))
  }

  function TkTarget(t: BindingTarget, k: List): List
    decreases t
  {
    match t
    case Drop => Cons(Discard, k)
    case Bound(n) => Cons(Token.Variable(n), k)
    case Both(items) => Cons(LParen, TkTargets(items, Cons(RParen, k)))
  }

  function TkTargets(items: seq<BindingTarget>, k: List): List
    decreases items
  {
    if items == [] then k
    else TkTarget(items[0], if |items| == 1 then k else Cons(Comma, TkTargets(items[1..], k)))
  }

  function TkArms(arms: seq<MatchArm>, k: List): List
    decreases arms
  {
    if arms == [] then k else TkArm(arms[0], TkArms(arms[1..], k))
  }

  function TkArm(arm: MatchArm, k: List): List
    decreases arm
  {
    TkGuard(arm.guard, Cons(Arrow, TkMatchTarget(arm.target, k)))
  }

  function TkGuard(g: MatchGuard, k: List): List
    decreases g
  {
    match g
    case Fallback => Cons(Ident("_"), k)
    case Call(r, args) => TkRef(r, Cons(LParen, TkItems(args, Cons(RParen, k))))
  }

  function TkMatchTarget(t: MatchTarget, k: List): List
    decreases t
  {
    match t
    case ToNode(r) => TkRef(r, k)
    case ToValue(e) => TkEndpoint(e, k)
  }

  function TkType(ty: TypeText, k: List): List
  {
    if ty == [] then k else Cons(ty[0], TkType(ty[1..], k))
  }

  function TkPort(p: Port, k: List): List
  {
    Cons(Ident(p.name), Cons(Colon, TkType(p.ty, k)))
  }

  function TkPorts(ps: seq<Port>, k: List): List
  {
    if ps == [] then k
    else TkPort(ps[0], if |ps| == 1 then k else Cons(Comma, TkPorts(ps[1..], k)))
  }

  function TkPortOrList(ps: seq<Port>, k: List): List
  {
    if |ps| == 1 then TkPort(ps[0], k) else Cons(LParen, TkPorts(ps, Cons(RParen, k)))
  }

  function TkInputs(ps: seq<Port>, k: List): List
  {
    Cons(LParen, TkPorts(ps, Cons(RParen, k)))
  }

  /** Every field of a struct declaration is followed by a comma. */
  function TkStructPorts(ps: seq<Port>, k: List): List
  {
    if ps == [] then k else TkPort(ps[0], Cons(Comma, TkStructPorts(ps[1..], k)))
  }

  function TkItem(i: ImportItem, k: List): List
  {
    Cons(Ident(i.name), if i.alias.None? then k else Cons(Ident("as"), Cons(Ident(i.alias.value), k)))
  }

  /** A multi-line item list also has a comma after its last item. */
  function TkImportItems(items: seq<ImportItem>, lastComma: bool, k: List): List
  {
    if items == [] then k
    else if |items| == 1 then TkItem(items[0], if lastComma then Cons(Comma, k) else k)
    else TkItem(items[0], Cons(Comma, TkImportItems(items[1..], lastComma, k)))
  }

  function TkSource(s: ImportSource, k: List): List
  {
    match s
    case FromModule(path) => TkQName(path, k)
    case FromFile(file) => Cons(Token.Str(file), k)
  }

  function TkForeignHead(language: ForeignTarget, origin: ForeignSource, k: List): List
  {
    Cons(Ident(if language.Js? then "js" else "c"),
      match origin
      case JsModule(s) => Cons(Ident("module"), Cons(Token.Str(s), k))
      case JsGlobal(s) => Cons(Ident("global"), Cons(Token.Str(s), k))
      case CHeader(h, file) =>
        Cons(Ident("header"), Cons(Token.Str(h),
          if file.None? then k else Cons(Ident("source"), Cons(Token.Str(file.value), k)))))
  }

  function TkForeignNode(n: ForeignNode, k: List): List
  {
    Cons(Ident(if n.effect.Pure? then "pure" else "io"), Cons(Ident("node"), Cons(Ident(n.name),
      TkInputs(n.inputs, Cons(Arrow, TkPortOrList(n.outputs, Cons(Equal, TkQName(n.symbol, k))))))))
  }

  function TkForeignNodes(ns: seq<ForeignNode>, k: List): List
  {
    if ns == [] then k else TkForeignNode(ns[0], TkForeignNodes(ns[1..], k))
  }

  function TkParam(p: NodeParam, k: List): List
  {
    Cons(Ident(p.name), Cons(Colon, Cons(Ident("node"), Cons(LParen,
      TkType(p.input, Cons(RParen, Cons(Arrow, TkType(p.output, k))))))))
  }

  function TkParamList(ps: seq<NodeParam>, k: List): List
  {
    if ps == [] then k
    else TkParam(ps[0], if |ps| == 1 then k else Cons(Comma, TkParamList(ps[1..], k)))
  }

  function TkParams(ps: seq<NodeParam>, k: List): List
  {
    if ps == [] then k else Cons(Less, TkParamList(ps, Cons(Greater, k)))
  }

  function TkChain(c: Chain, k: List): List
  {
    TkEndpoint(c.source, TkStages(c.stages, k))
  }

  function TkChains(cs: seq<Chain>, k: List): List
  {
    if cs == [] then k else TkChain(cs[0], TkChains(cs[1..], k))
  }

  function TkCallable(c: Callable, k: List): List
  {
    Cons(Ident(c.name), TkParams(c.nodeParams, TkInputs(c.inputs, Cons(Arrow,
      TkPortOrList(c.outputs, Cons(LBrace, TkChains(c.chains, Cons(RBrace, k))))))))
  }

  function TkDecl(d: Decl, lastComma: bool, k: List): List
  {
    match d
    case TypeAlias(n, ty) => Cons(Ident("type"), Cons(Ident(n), Cons(Equal, TkType(ty, k))))
    case StructDecl(n, fields) =>
      Cons(Ident("struct"), Cons(Ident(n), Cons(LBrace, TkStructPorts(fields, Cons(RBrace, k)))))
    case Import(source, As(n)) =>
      Cons(Ident("import"), TkSource(source, Cons(Ident("as"), Cons(Ident(n), k))))
    case Import(source, Items(items)) =>
      Cons(Ident("import"), TkSource(source, Cons(LBrace, TkImportItems(items, lastComma, Cons(RBrace, k)))))
    case Foreign(language, origin, nodes) =>
      Cons(Ident("foreign"), TkForeignHead(language, origin, Cons(LBrace, TkForeignNodes(nodes, Cons(RBrace, k)))))
    case Node(c) =>
      var body := Cons(Ident("node"), TkCallable(c, k));
      if c.isExtern then Cons(Ident("extern"), body) else body
    case Program(c) => Cons(Ident("program"), TkCallable(c, k))
  }

  /** `lastComma[i]` says whether declaration `i`, if an import, is written over several lines. */
  function TkDecls(ds: seq<Decl>, lastComma: seq<bool>): List
    requires |ds| == |lastComma|
  {
    if ds == [] then Nil else TkDecl(ds[0], lastComma[0], TkDecls(ds[1..], lastComma[1..]))
  }
}
