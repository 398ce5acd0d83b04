/**
 * The grammar of src/parser.rs as functions from the remaining tokens to a tree and the tokens after it.
 * The end of input is the empty sequence; where the parser loops, the function takes what the loop
 * has collected so far.
 */
module Parsing {
  import opened Tokens
  import opened Ast

  datatype Parsed<+T> = Ok(value: T, rest: List) | Fail {
    predicate IsFailure() { Fail? }

    function PropagateFailure<U>(): Parsed<U>
      requires Fail?
    {
      Fail
    }

    function Extract(): (T, List)
      requires Ok?
    {
      (value, rest)
    }
  }

  function Peek(ts: List): Token { if ts.Nil? then Eof else ts.head }

  function Next(ts: List): List { if ts.Nil? then Nil else ts.tail }

  ghost predicate NoMore(rest: List, ts: List) { rest == ts || rest < ts }

  // ---- Single tokens ----

  function Expect(t: Token, ts: List): (r: Parsed<()>)
    requires t != Eof
    ensures r.Ok? ==> r.rest < ts
  {
    if Peek(ts) == t then Ok((), Next(ts)) else Fail
  }

  function ExpectIdent(ts: List): (r: Parsed<string>)
    ensures r.Ok? ==> r.rest < ts
  {
    if Peek(ts).Ident? then Ok(ts.head.name, Next(ts)) else Fail
  }

  function ExpectVariable(ts: List): (r: Parsed<string>)
    ensures r.Ok? ==> r.rest < ts
  {
    if Peek(ts).Variable? then Ok(ts.head.name, Next(ts)) else Fail
  }

  function ExpectString(ts: List): (r: Parsed<string>)
    ensures r.Ok? ==> r.rest < ts
  {
    if Peek(ts).Str? then Ok(ts.head.chars, Next(ts)) else Fail
  }

  // ---- Names ----

  function QIdentTail(acc: QName, ts: List): (r: Parsed<QName>)
    ensures r.Ok? ==> NoMore(r.rest, ts)
    decreases ts
  {
    if Peek(ts) == Dot then
      var (name, ts1) :- ExpectIdent(Next(ts));
      QIdentTail(acc + [name], ts1)
    else Ok(acc, ts)
  }

  function QIdent(ts: List): (r: Parsed<QName>)
    ensures r.Ok? ==> r.rest < ts
  {
    var (name, ts1) :- ExpectIdent(ts);
    QIdentTail([name], ts1)
  }

  /** The arguments of a node reference, up to and including `>`. */
  function RefArgs(acc: seq<QName>, ts: List): (r: Parsed<seq<QName>>)
    ensures r.Ok? ==> r.rest < ts
    decreases ts
  {
    var (arg, ts1) :- QIdent(ts);
    if Peek(ts1) == Comma then
      if Peek(Next(ts1)) == Greater then Ok(acc + [arg], Next(Next(ts1)))
      else RefArgs(acc + [arg], Next(ts1))
    else
      var (_, ts2) :- Expect(Greater, ts1);
      Ok(acc + [arg], ts2)
  }

  function ParseNodeRef(ts: List): (r: Parsed<NodeRef>)
    ensures r.Ok? ==> r.rest < ts
  {
    var (base, ts1) :- QIdent(ts);
    if Peek(ts1) != Less then Ok(NodeRef(base, []), ts1)
    else if Peek(Next(ts1)) == Greater then Fail
    else
      var (args, ts2) :- RefArgs([], Next(ts1));
      Ok(NodeRef(base, args), ts2)
  }

  // ---- Binding targets ----

  function ParseTarget(ts: List): (r: Parsed<BindingTarget>)
    ensures r.Ok? ==> r.rest < ts
    decreases ts, 0
  {
    match Peek(ts)
    case Discard => Ok(Drop, Next(ts))
    case Variable(name) => Ok(Bound(name), Next(ts))
    case LParen =>
      var (first, ts1) :- ParseTarget(Next(ts));
      var (_, ts2) :- Expect(Comma, ts1);
      var (second, ts3) :- ParseTarget(ts2);
      var (items, ts4) :- TargetItems([first, second], ts3);
      var (_, ts5) :- Expect(RParen, ts4);
      Ok(Both(items), ts5)
    case _ => Fail
  }

  function TargetItems(acc: seq<BindingTarget>, ts: List): (r: Parsed<seq<BindingTarget>>)
    ensures r.Ok? ==> NoMore(r.rest, ts)
    decreases ts, 1
  {
    if Peek(ts) == Comma then
      var (item, ts1) :- ParseTarget(Next(ts));
      TargetItems(acc + [item], ts1)
    else Ok(acc, ts)
  }

  // ---- Endpoints, stages and match arms ----

  function ParseAtom(ts: List): (r: Parsed<Endpoint>)
    ensures r.Ok? ==> r.rest < ts
    decreases ts, 0
  {
    match Peek(ts)
    case Variable(name) => Ok(Endpoint.Variable(name), Next(ts))
    case Int(n) => Ok(Endpoint.Int(n), Next(ts))
    case Real(text) => Ok(Endpoint.Real(text), Next(ts))
    case RealF32(text) => Ok(Endpoint.RealF32(text), Next(ts))
    case Bool(b) => Ok(Endpoint.Bool(b), Next(ts))
    case Str(s) => Ok(Endpoint.Str(s), Next(ts))
    case LParen =>
      if Peek(Next(ts)) == RParen then Ok(Unit, Next(Next(ts)))
      else
        var (first, ts1) :- ParseInline(Next(ts));
        var (_, ts2) :- Expect(Comma, ts1);
        var (second, ts3) :- ParseInline(ts2);
        var (items, ts4) :- TupleItems([first, second], ts3);
        var (_, ts5) :- Expect(RParen, ts4);
        Ok(Tuple(items), ts5)
    case LBracket =>
      if Peek(Next(ts)) == RBracket then Ok(Seq([]), Next(Next(ts)))
      else
        var (items, ts1) :- InlineList([], RBracket, Next(ts));
        Ok(Seq(items), ts1)
    case Ident(name) =>
      if Peek(Next(ts)) != LBrace then Fail
      else if Peek(Next(Next(ts))) == RBrace then Fail
      else
        var (fields, ts1) :- StructFields([], Next(Next(ts)));
        Ok(Struct(name, fields), ts1)
    case _ => Fail
  }

  function ParseInline(ts: List): (r: Parsed<Endpoint>)
    ensures r.Ok? ==> r.rest < ts
    decreases ts, 3
  {
    var (source, ts1) :- ParseAtom(ts);
    var (stages, ts2) :- Stages([], ts1);
    Ok(if stages == [] then source else Eval(source, stages), ts2)
  }

  /** Items separated by `,`, with an optional last `,`, up to and including `close`. */
  function InlineList(acc: seq<Endpoint>, close: Token, ts: List): (r: Parsed<seq<Endpoint>>)
    requires close != Eof
    ensures r.Ok? ==> r.rest < ts
    decreases ts, 4
  {
    var (item, ts1) :- ParseInline(ts);
    if Peek(ts1) == Comma then
      if Peek(Next(ts1)) == close then Ok(acc + [item], Next(Next(ts1)))
      else InlineList(acc + [item], close, Next(ts1))
    else
      var (_, ts2) :- Expect(close, ts1);
      Ok(acc + [item], ts2)
  }

  function TupleItems(acc: seq<Endpoint>, ts: List): (r: Parsed<seq<Endpoint>>)
    ensures r.Ok? ==> NoMore(r.rest, ts)
    decreases ts, 4
  {
    if Peek(ts) == Comma then
      var (item, ts1) :- ParseInline(Next(ts));
      TupleItems(acc + [item], ts1)
    else Ok(acc, ts)
  }

  function StructFields(acc: seq<Field>, ts: List): (r: Parsed<seq<Field>>)
    ensures r.Ok? ==> r.rest < ts
    decreases ts, 4
  {
    var (name, ts1) :- ExpectIdent(ts);
    var (_, ts2) :- Expect(Colon, ts1);
    var (value, ts3) :- ParseInline(ts2);
    var acc1 := acc + [Field(name, value)];
    if Peek(ts3) == Comma then
      if Peek(Next(ts3)) == RBrace then Ok(acc1, Next(Next(ts3)))
      else StructFields(acc1, Next(ts3))
    else
      var (_, ts4) :- Expect(RBrace, ts3);
      Ok(acc1, ts4)
  }

  /** `-> stage` as often as it goes. */
  function Stages(acc: seq<Stage>, ts: List): (r: Parsed<seq<Stage>>)
    ensures r.Ok? ==> NoMore(r.rest, ts)
    decreases ts, 2
  {
    if Peek(ts) == Arrow then
      var (stage, ts1) :- ParseStage(Next(ts));
      Stages(acc + [stage], ts1)
    else Ok(acc, ts)
  }

  function ParseStage(ts: List): (r: Parsed<Stage>)
    ensures r.Ok? ==> r.rest < ts
    decreases ts, 1
  {
    match Peek(ts)
    case Ident(word) => WordStage(word, ts)
    case Variable(_) => BindStage(ts)
    case Discard => BindStage(ts)
    case LParen => BindStage(ts)
    case _ =>
      var (e, ts1) :- ParseAtom(ts);
      Ok(Stage.Value(e), ts1)
  }

  function BindStage(ts: List): (r: Parsed<Stage>)
    ensures r.Ok? ==> r.rest < ts
  {
    var (target, ts1) :- ParseTarget(ts);
    Ok(Bind(target), ts1)
  }

  predicate IsStageWord(w: string)
  {
    w in {"map", "fault", "filter", "field", "repeat", "reduce", "scan", "match"}
  }

  /** A stage that starts with the identifier `word`. */
  function WordStage(word: string, ts: List): (r: Parsed<Stage>)
    requires Peek(ts) == Ident(word)
    ensures r.Ok? ==> r.rest < ts
    decreases ts, 0
  {
    if word == "repeat" then RepeatStage(ts.tail)
    else if word == "reduce" then
      var (node, ts1) :- ParseNodeRef(ts.tail);
      var (identity, ts2) :- IdentityArgument(ts1);
      Ok(Reduce(node, identity), ts2)
    else if word == "scan" then
      var (node, ts1) :- ParseNodeRef(ts.tail);
      var (identity, ts2) :- IdentityArgument(ts1);
      Ok(Scan(node, identity), ts2)
    else if word == "match" then
      var (_, ts1) :- Expect(LBrace, ts.tail);
      var (arms, ts2) :- Arms([], false, ts1);
      Ok(Match(arms), ts2)
    else NodeStage(word, ts)
  }

  /** The stages that hold no endpoint; any other word is the name of the node to call. */
  function NodeStage(word: string, ts: List): (r: Parsed<Stage>)
    requires Peek(ts) == Ident(word)
    ensures r.Ok? ==> r.rest < ts
  {
    if word == "map" then
      var (node, ts1) :- ParseNodeRef(ts.tail);
      Ok(Stage.Map(node), ts1)
    else if word == "fault" then FaultMapStage(ts.tail)
    else if word == "filter" then
      var (node, ts1) :- ParseNodeRef(ts.tail);
      Ok(Filter(node), ts1)
    else if word == "field" then
      var (name, ts1) :- ExpectIdent(ts.tail);
      Ok(FieldOf(name), ts1)
    else
      var (node, ts1) :- ParseNodeRef(ts);
      Ok(Stage.Value(Name(node)), ts1)
  }

  /** `map node { ok -> $a, fault -> $b }` after `fault`. */
  function FaultMapStage(ts: List): (r: Parsed<Stage>)
    ensures r.Ok? ==> r.rest < ts
  {
    var (_, ts1) :- Expect(Ident("map"), ts);
    var (node, ts2) :- ParseNodeRef(ts1);
    Outcomes(node, ts2)
  }

  /** `{ ok -> $a, fault -> $b }`. */
  function Outcomes(node: NodeRef, ts: List): (r: Parsed<Stage>)
    ensures r.Ok? ==> r.rest < ts && r.value.FaultMap?
  {
    var (_, ts1) :- Expect(LBrace, ts);
    var (_, ts2) :- Expect(Ident("ok"), ts1);
    var (_, ts3) :- Expect(Arrow, ts2);
    var (ok, ts4) :- ExpectVariable(ts3);
    var (_, ts5) :- Expect(Comma, ts4);
    var (_, ts6) :- Expect(Ident("fault"), ts5);
    var (_, ts7) :- Expect(Arrow, ts6);
    var (fault, ts8) :- ExpectVariable(ts7);
    var (_, ts9) :- Expect(RBrace, ts8);
    Ok(FaultMap(node, ok, fault), ts9)
  }

  /** `<count> node` after `repeat`; the count is a variable or an integer. */
  function RepeatStage(ts: List): (r: Parsed<Stage>)
    ensures r.Ok? ==> r.rest < ts
    decreases ts, 1
  {
    var (_, ts1) :- Expect(Less, ts);
    if !Peek(ts1).Variable? && !Peek(ts1).Int? then Fail
    else
      var (count, ts2) :- ParseAtom(ts1);
      var (_, ts3) :- Expect(Greater, ts2);
      var (node, ts4) :- ParseNodeRef(ts3);
      Ok(Repeat(count, node), ts4)
  }

  /** `(identity: value)`. */
  function IdentityArgument(ts: List): (r: Parsed<Endpoint>)
    ensures r.Ok? ==> r.rest < ts
    decreases ts, 1
  {
    var (_, ts1) :- Expect(LParen, ts);
    var (_, ts2) :- Expect(Ident("identity"), ts1);
    var (_, ts3) :- Expect(Colon, ts2);
    var (identity, ts4) :- ParseAtom(ts3);
    var (_, ts5) :- Expect(RParen, ts4);
    Ok(identity, ts5)
  }

  /** Match arms up to and including `}`; there must be one, and the last is the only fallback. */
  function Arms(acc: seq<MatchArm>, sawFallback: bool, ts: List): (r: Parsed<seq<MatchArm>>)
    ensures r.Ok? ==> r.rest < ts
    decreases ts, 4
  {
    if Peek(ts) == RBrace then
      if acc == [] || !sawFallback then Fail else Ok(acc, Next(ts))
    else if sawFallback then Fail
    else
      var (guard, ts1) :- Guard(ts);
      var (_, ts2) :- Expect(Arrow, ts1);
      var (target, ts3) :- ParseMatchTarget(ts2);
      Arms(acc + [MatchArm(guard, target)], guard.Fallback?, ts3)
  }

  function Guard(ts: List): (r: Parsed<MatchGuard>)
    ensures r.Ok? ==> r.rest < ts
    decreases ts, 3
  {
    if Peek(ts) == Ident("_") then Ok(Fallback, Next(ts))
    else
      var (node, ts1) :- ParseNodeRef(ts);
      var (_, ts2) :- Expect(LParen, ts1);
      if Peek(ts2) == RParen then Ok(Call(node, []), Next(ts2))
      else
        var (args, ts3) :- InlineList([], RParen, ts2);
        Ok(Call(node, args), ts3)
  }

  function ParseMatchTarget(ts: List): (r: Parsed<MatchTarget>)
    ensures r.Ok? ==> r.rest < ts
    decreases ts, 4
  {
    if Peek(ts).Ident? then
      var (node, ts1) :- ParseNodeRef(ts);
      Ok(ToNode(node), ts1)
    else
      var (e, ts1) :- ParseInline(ts);
      Ok(ToValue(e), ts1)
  }

  // ---- Types ----

  predicate IsDeclarationWord(w: string)
  {
    w in {"type", "struct", "import", "foreign", "extern", "node", "program"}
  }

  /** The tokens at which a non-empty type outside brackets ends. */
  predicate StopsType(t: Token)
  {
    || t == Comma || t == Equal || t == RParen || t == LBrace || t == RBrace || t == Greater || t == Eof
    || (t.Ident? && IsDeclarationWord(t.name))
  }

  /** Whether the next token goes on with a type that has read `text` and is inside `depth` brackets. */
  predicate ContinuesType(empty: bool, depth: nat, t: Token)
  {
    match t
    case Ident(name) => empty || depth > 0 || !IsDeclarationWord(name)
    case Int(_) => true
    case LParen => true
    case LBracket => true
    case Pipe => true
    case Dot => true
    case RParen => depth > 0
    case RBracket => depth > 0
    case Comma => depth > 0
    case _ => false
  }

  function DepthAfter(depth: nat, t: Token): nat
    requires t.RParen? || t.RBracket? ==> depth > 0
  {
    match t
    case LParen => depth + 1
    case LBracket => depth + 1
    case RParen => depth - 1
    case RBracket => depth - 1
    case _ => depth
  }

  function TypeTail(text: TypeText, depth: nat, ts: List): (r: Parsed<TypeText>)
    ensures r.Ok? ==> NoMore(r.rest, ts)
    decreases ts
  {
    var t := Peek(ts);
    if ContinuesType(text == [], depth, t) then TypeTail(text + [t], DepthAfter(depth, t), Next(ts))
    else if StopsType(t) && text != [] && depth == 0 then Ok(text, ts)
    else Fail
  }

  function ParseType(ts: List): (r: Parsed<TypeText>)
    ensures r.Ok? ==> r.rest < ts
  {
    TypeTail([], 0, ts)
  }

  // ---- Ports ----

  function ParsePort(ts: List): (r: Parsed<Port>)
    ensures r.Ok? ==> r.rest < ts
  {
    var (name, ts1) :- ExpectIdent(ts);
    var (_, ts2) :- Expect(Colon, ts1);
    var (ty, ts3) :- ParseType(ts2);
    Ok(Port(name, ty), ts3)
  }

  function PortTail(acc: seq<Port>, ts: List): (r: Parsed<seq<Port>>)
    ensures r.Ok? ==> NoMore(r.rest, ts)
    decreases ts
  {
    if Peek(ts) == Comma then
      var (port, ts1) :- ParsePort(Next(ts));
      PortTail(acc + [port], ts1)
    else Ok(acc, ts)
  }

  function PortList(ts: List): (r: Parsed<seq<Port>>)
    ensures r.Ok? ==> r.rest < ts
  {
    var (port, ts1) :- ParsePort(ts);
    PortTail([port], ts1)
  }

  function PortOrList(ts: List): (r: Parsed<seq<Port>>)
    ensures r.Ok? ==> r.rest < ts
  {
    if Peek(ts) == LParen then
      var (ports, ts1) :- PortList(Next(ts));
      var (_, ts2) :- Expect(RParen, ts1);
      Ok(ports, ts2)
    else
      var (port, ts1) :- ParsePort(ts);
      Ok([port], ts1)
  }

  /** `(ports)`, possibly empty. */
  function Inputs(ts: List): (r: Parsed<seq<Port>>)
    ensures r.Ok? ==> r.rest < ts
  {
    var (_, ts1) :- Expect(LParen, ts);
    if Peek(ts1) == RParen then Ok([], Next(ts1))
    else
      var (ports, ts2) :- PortList(ts1);
      var (_, ts3) :- Expect(RParen, ts2);
      Ok(ports, ts3)
  }

  // ---- Declarations ----

  function StructPorts(acc: seq<Port>, ts: List): (r: Parsed<seq<Port>>)
    ensures r.Ok? ==> r.rest < ts
    decreases ts
  {
    var (port, ts1) :- ParsePort(ts);
    if Peek(ts1) == Comma then
      if Peek(Next(ts1)) == RBrace then Ok(acc + [port], Next(Next(ts1)))
      else StructPorts(acc + [port], Next(ts1))
    else
      var (_, ts2) :- Expect(RBrace, ts1);
      Ok(acc + [port], ts2)
  }

  function ParseStruct(ts: List): (r: Parsed<Decl>)
    ensures r.Ok? ==> r.rest < ts
  {
    var (name, ts1) :- ExpectIdent(ts);
    var (_, ts2) :- Expect(LBrace, ts1);
    if Peek(ts2) == RBrace then Fail
    else
      var (fields, ts3) :- StructPorts([], ts2);
      Ok(StructDecl(name, fields), ts3)
  }

  function ParseAlias(ts: List): (r: Parsed<Decl>)
    ensures r.Ok? ==> r.rest < ts
  {
    var (name, ts1) :- ExpectIdent(ts);
    var (_, ts2) :- Expect(Equal, ts1);
    var (ty, ts3) :- ParseType(ts2);
    Ok(TypeAlias(name, ty), ts3)
  }

  function ParseSource(ts: List): (r: Parsed<ImportSource>)
    ensures r.Ok? ==> r.rest < ts
  {
    match Peek(ts)
    case Str(path) => Ok(FromFile(path), Next(ts))
    case Ident(_) =>
      var (path, ts1) :- QIdent(ts);
      Ok(FromModule(path), ts1)
    case _ => Fail
  }

  function ParseItem(ts: List): (r: Parsed<ImportItem>)
    ensures r.Ok? ==> r.rest < ts
  {
    var (name, ts1) :- ExpectIdent(ts);
    if Peek(ts1) == Ident("as") then
      var (alias, ts2) :- ExpectIdent(Next(ts1));
      Ok(ImportItem(name, Some(alias)), ts2)
    else Ok(ImportItem(name, None), ts1)
  }

  function ImportItems(acc: seq<ImportItem>, ts: List): (r: Parsed<seq<ImportItem>>)
    ensures r.Ok? ==> r.rest < ts
    decreases ts
  {
    var (item, ts1) :- ParseItem(ts);
    if Peek(ts1) == Comma then
      if Peek(Next(ts1)) == RBrace then Ok(acc + [item], Next(Next(ts1)))
      else ImportItems(acc + [item], Next(ts1))
    else
      var (_, ts2) :- Expect(RBrace, ts1);
      Ok(acc + [item], ts2)
  }

  function ParseImport(ts: List): (r: Parsed<Decl>)
    ensures r.Ok? ==> r.rest < ts
  {
    var (source, ts1) :- ParseSource(ts);
    if Peek(ts1) == Ident("as") then
      var (alias, ts2) :- ExpectIdent(Next(ts1));
      Ok(Import(source, As(alias)), ts2)
    else
      var (_, ts2) :- Expect(LBrace, ts1);
      var (items, ts3) :- ImportItems([], ts2);
      Ok(Import(source, Items(items)), ts3)
  }

  /** Language and source of a foreign block. */
  function ParseForeignHead(ts: List): (r: Parsed<(ForeignTarget, ForeignSource)>)
    ensures r.Ok? ==> r.rest < ts
  {
    var (language, ts1) :- ExpectIdent(ts);
    if language == "js" then
      var (kind, ts2) :- ExpectIdent(ts1);
      if kind != "module" && kind != "global" then Fail
      else
        var (text, ts3) :- ExpectString(ts2);
        Ok((Js, if kind == "module" then JsModule(text) else JsGlobal(text)), ts3)
    else if language == "c" then
      var (kind, ts2) :- ExpectIdent(ts1);
      if kind != "header" then Fail
      else
        var (header, ts3) :- ExpectString(ts2);
        if Peek(ts3) == Ident("source") then
          var (file, ts4) :- ExpectString(Next(ts3));
          Ok((C, CHeader(header, Some(file))), ts4)
        else Ok((C, CHeader(header, None)), ts3)
    else Fail
  }

  function ParseForeignNode(ts: List): (r: Parsed<ForeignNode>)
    ensures r.Ok? ==> r.rest < ts
  {
    var (effect, ts1) :- ExpectIdent(ts);
    if effect != "pure" && effect != "io" then Fail
    else
      var (_, ts2) :- Expect(Ident("node"), ts1);
      var (name, ts3) :- ExpectIdent(ts2);
      var (inputs, ts4) :- Inputs(ts3);
      var (_, ts5) :- Expect(Arrow, ts4);
      var (outputs, ts6) :- PortOrList(ts5);
      var (_, ts7) :- Expect(Equal, ts6);
      var (symbol, ts8) :- QIdent(ts7);
      Ok(ForeignNode(name, if effect == "pure" then Pure else Io, inputs, outputs, symbol), ts8)
  }

  function ForeignNodes(acc: seq<ForeignNode>, ts: List): (r: Parsed<seq<ForeignNode>>)
    ensures r.Ok? ==> r.rest < ts
    decreases ts
  {
    if Peek(ts) == RBrace then
      if acc == [] then Fail else Ok(acc, Next(ts))
    else
      var (node, ts1) :- ParseForeignNode(ts);
      ForeignNodes(acc + [node], ts1)
  }

  function ParseForeign(ts: List): (r: Parsed<Decl>)
    ensures r.Ok? ==> r.rest < ts
  {
    var (head, ts1) :- ParseForeignHead(ts);
    var (_, ts2) :- Expect(LBrace, ts1);
    var (nodes, ts3) :- ForeignNodes([], ts2);
    Ok(Foreign(head.0, head.1, nodes), ts3)
  }

  /** The type of `node(input)`, `()` when nothing stands between the parentheses. */
  function ParamInput(ts: List): (r: Parsed<TypeText>)
    ensures r.Ok? ==> r.rest < ts
  {
    var (_, ts1) :- Expect(LParen, ts);
    if Peek(ts1) == RParen then Ok([LParen, RParen], Next(ts1))
    else
      var (ty, ts2) :- ParseType(ts1);
      var (_, ts3) :- Expect(RParen, ts2);
      Ok(ty, ts3)
  }

  /** `: node(input) -> output`. */
  function ParamTypes(ts: List): (r: Parsed<(TypeText, TypeText)>)
    ensures r.Ok? ==> r.rest < ts
  {
    var (_, ts1) :- Expect(Colon, ts);
    var (_, ts2) :- Expect(Ident("node"), ts1);
    var (input, ts3) :- ParamInput(ts2);
    var (_, ts4) :- Expect(Arrow, ts3);
    var (output, ts5) :- ParseType(ts4);
    Ok((input, output), ts5)
  }

  function ParseParam(ts: List): (r: Parsed<NodeParam>)
    ensures r.Ok? ==> r.rest < ts
  {
    var (name, ts1) :- ExpectIdent(ts);
    var (types, ts2) :- ParamTypes(ts1);
    Ok(NodeParam(name, types.0, types.1), ts2)
  }

  function NodeParams(acc: seq<NodeParam>, ts: List): (r: Parsed<seq<NodeParam>>)
    ensures r.Ok? ==> r.rest < ts
    decreases ts
  {
    var (param, ts1) :- ParseParam(ts);
    var params := acc + [param];
    if Peek(ts1) != Comma then LastParam(params, ts1)
    else if Peek(Next(ts1)) == Greater then Ok(params, Next(Next(ts1)))
    else NodeParams(params, Next(ts1))
  }

  function LastParam(params: seq<NodeParam>, ts: List): (r: Parsed<seq<NodeParam>>)
    ensures r.Ok? ==> r.rest < ts
  {
    var (_, ts1) :- Expect(Greater, ts);
    Ok(params, ts1)
  }

  function ParseNodeParams(ts: List): (r: Parsed<seq<NodeParam>>)
    ensures r.Ok? ==> NoMore(r.rest, ts)
  {
    if Peek(ts) != Less then Ok([], ts)
    else if Peek(Next(ts)) == Greater then Fail
    else NodeParams([], Next(ts))
  }

  function ParseChain(ts: List): (r: Parsed<Chain>)
    ensures r.Ok? ==> r.rest < ts
  {
    var (source, ts1) :- ParseAtom(ts);
    var (stages, ts2) :- Stages([], ts1);
    if stages == [] then Fail else Ok(Chain(source, stages), ts2)
  }

  /** Chains up to and including `}`. */
  function Chains(acc: seq<Chain>, ts: List): (r: Parsed<seq<Chain>>)
    ensures r.Ok? ==> r.rest < ts
    decreases ts
  {
    if Peek(ts) == RBrace then Ok(acc, Next(ts))
    else
      var (chain, ts1) :- ParseChain(ts);
      Chains(acc + [chain], ts1)
  }

  function ParseCallable(isExtern: bool, ts: List): (r: Parsed<Callable>)
    ensures r.Ok? ==> r.rest < ts
  {
    var (name, ts1) :- ExpectIdent(ts);
    var (nodeParams, ts2) :- ParseNodeParams(ts1);
    var (inputs, ts3) :- Inputs(ts2);
    var (_, ts4) :- Expect(Arrow, ts3);
    var (outputs, ts5) :- PortOrList(ts4);
    var (_, ts6) :- Expect(LBrace, ts5);
    var (chains, ts7) :- Chains([], ts6);
    Ok(Callable(name, isExtern, nodeParams, inputs, outputs, chains), ts7)
  }

  function ParseDecl(ts: List): (r: Parsed<Decl>)
    ensures r.Ok? ==> r.rest < ts
  {
    if !Peek(ts).Ident? then Fail
    else
      var word := ts.head.name;
      if word == "type" then ParseAlias(Next(ts))
      else if word == "struct" then ParseStruct(Next(ts))
      else if word == "import" then ParseImport(Next(ts))
      else if word == "foreign" then ParseForeign(Next(ts))
      else if word == "extern" then
        var (_, ts1) :- Expect(Ident("node"), Next(ts));
        var (callable, ts2) :- ParseCallable(true, ts1);
        Ok(Decl.Node(callable), ts2)
      else if word == "node" then
        var (callable, ts1) :- ParseCallable(false, Next(ts));
        Ok(Decl.Node(callable), ts1)
      else if word == "program" then
        var (callable, ts1) :- ParseCallable(false, Next(ts));
        Ok(Program(callable), ts1)
      else Fail
  }

  function Decls(acc: seq<Decl>, ts: List): Parsed<seq<Decl>>
    decreases ts
  {
    if ts.Nil? then Ok(acc, Nil)
    else
      var (decl, ts1) :- ParseDecl(ts);
      Decls(acc + [decl], ts1)
  }

  function ParseModule(ts: List): Option<Module>
  {
    match Decls([], ts)
    case Fail => None
    case Ok(declarations, _) => Some(Module(declarations))
  }
}
