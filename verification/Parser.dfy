/** struct Parser of src/parser.rs: a position that moves over the tokens of a text. */
module Parser {
  import opened Tokens
  import opened Ast
  import G = Parsing

  /** The outcome of a method that parsed: what the grammar says about the tokens that were left before it. */
  ghost predicate Agrees<T(!new)>(r: Option<T>, expected: G.Parsed<T>, rest: List)
  {
    match expected
    case Fail => r.None?
    case Ok(value, k) => r == Some(value) && rest == k
  }

  class Parser {
    const tokens: seq<Token>
    var pos: nat

    constructor (source: seq<Token>)
      requires forall i :: 0 <= i < |source| ==> source[i] != Eof
      ensures Valid() && Rest() == ListOf(source)
    {
      tokens := source + [Eof];
      pos := 0;
      new;
      assert tokens[0..|tokens| - 1] == source;
    }

    /** The position never leaves the tokens: the last one, and only that one, is the end of input. */
    ghost predicate Valid()
      reads this
    {
      && pos < |tokens|
      && tokens[|tokens| - 1] == Eof
      && forall i :: 0 <= i < |tokens| - 1 ==> tokens[i] != Eof
    }

    ghost function Rest(): List
      requires Valid()
      reads this
    {
      ListOf(tokens[pos..|tokens| - 1])
    }

    // ---- Single tokens ----

    function PeekToken(): (t: Token)
      requires Valid()
      reads this
      ensures t == G.Peek(Rest())
    {
      tokens[pos]
    }

    predicate PeekIs(t: Token)
      requires Valid()
      reads this
      ensures PeekIs(t) <==> G.Peek(Rest()) == t
    {
      PeekToken() == t
    }

    method Bump()
      requires Valid() && Rest().Cons?
      modifies this`pos
      ensures Valid() && Rest() == old(Rest()).tail
    {
      assert tokens[pos..|tokens| - 1][1..] == tokens[pos + 1..|tokens| - 1];
      pos := pos + 1;
    }

    method Eat(t: Token) returns (eaten: bool)
      requires Valid() && t != Eof
      modifies this`pos
      ensures Valid() && eaten == (G.Peek(old(Rest())) == t)
      ensures Rest() == if eaten then old(Rest()).tail else old(Rest())
    {
      eaten := PeekIs(t);
      if eaten {
        Bump();
      }
    }

    method Expect(t: Token) returns (r: Option<()>)
      requires Valid() && t != Eof
      modifies this`pos
      ensures Valid() && Agrees(r, G.Expect(t, old(Rest())), Rest())
    {
      var eaten := Eat(t);
      return if eaten then Some(()) else None;
    }

    method ExpectIdent() returns (r: Option<string>)
      requires Valid()
      modifies this`pos
      ensures Valid() && Agrees(r, G.ExpectIdent(old(Rest())), Rest())
    {
      var t := PeekToken();
      if !t.Ident? {
        return None;
      }
      Bump();
      return Some(t.name);
    }

    method ExpectVariable() returns (r: Option<string>)
      requires Valid()
      modifies this`pos
      ensures Valid() && Agrees(r, G.ExpectVariable(old(Rest())), Rest())
    {
      var t := PeekToken();
      if !t.Variable? {
        return None;
      }
      Bump();
      return Some(t.name);
    }

    method ExpectString() returns (r: Option<string>)
      requires Valid()
      modifies this`pos
      ensures Valid() && Agrees(r, G.ExpectString(old(Rest())), Rest())
    {
      var t := PeekToken();
      if !t.Str? {
        return None;
      }
      Bump();
      return Some(t.chars);
    }

    // ---- Names ----

    method ParseQualifiedIdent() returns (r: Option<QName>)
      requires Valid()
      modifies this`pos
      ensures Valid() && Agrees(r, G.QIdent(old(Rest())), Rest())
    {
      ghost var start := Rest();
      var first :- ExpectIdent();
      var name := [first];
      while PeekIs(Dot)
        invariant Valid()
        invariant G.QIdentTail(name, Rest()) == G.QIdent(start)
        decreases Rest()
      {
        Bump();
        var segment :- ExpectIdent();
        name := name + [segment];
      }
      return Some(name);
    }

    method ParseNodeRef() returns (r: Option<NodeRef>)
      requires Valid()
      modifies this`pos
      ensures Valid() && Agrees(r, G.ParseNodeRef(old(Rest())), Rest())
    {
      var base :- ParseQualifiedIdent();
      var less := Eat(Less);
      if !less {
        return Some(NodeRef(base, []));
      }
      if PeekIs(Greater) {
        return None;
      }
      ghost var start := Rest();
      var args := [];
      while true
        invariant Valid()
        invariant G.RefArgs(args, Rest()) == G.RefArgs([], start)
        decreases Rest()
      {
        var arg :- ParseQualifiedIdent();
        args := args + [arg];
        var comma := Eat(Comma);
        if comma {
          var closed := Eat(Greater);
          if closed {
            break;
          }
        } else {
          var _ :- Expect(Greater);
          break;
        }
      }
      return Some(NodeRef(base, args));
    }

    // ---- Binding targets ----

    method ParseBindingTarget() returns (r: Option<BindingTarget>)
      requires Valid()
      modifies this`pos
      ensures Valid() && Agrees(r, G.ParseTarget(old(Rest())), Rest())
      decreases Rest(), 1
    {
      match PeekToken()
      case Discard =>
        Bump();
        return Some(Drop);
      case Variable(name) =>
        Bump();
        return Some(Bound(name));
      case LParen => r := ParseBindingTuple();
      case _ => return None;
    }

    method ParseBindingTuple() returns (r: Option<BindingTarget>)
      requires Valid() && G.Peek(Rest()) == LParen
      modifies this`pos
      ensures Valid() && Agrees(r, G.ParseTarget(old(Rest())), Rest())
      decreases Rest(), 0
    {
      hide ListOf, Valid, Rest;
      ghost var outer := Rest();
      Bump();
      var first :- ParseBindingTarget();
      var _ :- Expect(Comma);
      var second :- ParseBindingTarget();
      var items := [first, second];
      ghost var start := Rest();
      while PeekIs(Comma)
        invariant Valid() && G.NoMore(Rest(), start)
        invariant G.TargetItems(items, Rest()) == G.TargetItems([first, second], start)
        decreases Rest()
      {
        Bump();
        var item :- ParseBindingTarget();
        items := items + [item];
      }
      var _ :- Expect(RParen);
      return Some(Both(items));
    }

    // ---- Endpoints ----

    method ParseEndpointAtom() returns (r: Option<Endpoint>)
      requires Valid()
      modifies this`pos
      ensures Valid() && Agrees(r, G.ParseAtom(old(Rest())), Rest())
      decreases Rest(), 1
    {
      match PeekToken()
      case Variable(name) =>
        Bump();
        return Some(Endpoint.Variable(name));
      case Int(n) =>
        Bump();
        return Some(Endpoint.Int(n));
      case Real(text) =>
        Bump();
        return Some(Endpoint.Real(text));
      case RealF32(text) =>
        Bump();
        return Some(Endpoint.RealF32(text));
      case Bool(b) =>
        Bump();
        return Some(Endpoint.Bool(b));
      case Str(s) =>
        Bump();
        return Some(Endpoint.Str(s));
      case LParen => r := ParseTupleOrUnit();
      case LBracket => r := ParseSeq();
      case Ident(name) =>
        ghost var outer := Rest();
        Bump();
        if !PeekIs(LBrace) {
          return None;
        }
        r := ParseStructLiteral(name, outer);
      case _ => return None;
    }

    method ParseTupleOrUnit() returns (r: Option<Endpoint>)
      requires Valid() && G.Peek(Rest()) == LParen
      modifies this`pos
      ensures Valid() && Agrees(r, G.ParseAtom(old(Rest())), Rest())
      decreases Rest(), 0
    {
      hide G.ParseInline, G.TupleItems;
      Bump();
      var unit := Eat(RParen);
      if unit {
        return Some(Unit);
      }
      var first :- ParseInlineEndpoint();
      var _ :- Expect(Comma);
      var second :- ParseInlineEndpoint();
      var items :- ParseTupleItems([first, second]);
      var _ :- Expect(RParen);
      return Some(Tuple(items));
    }

    /** The loop of parse_tuple_or_unit. */
    method ParseTupleItems(first: seq<Endpoint>) returns (r: Option<seq<Endpoint>>)
      requires Valid()
      modifies this`pos
      ensures Valid() && Agrees(r, G.TupleItems(first, old(Rest())), Rest())
      decreases Rest(), 4
    {
      hide G.ParseInline;
      ghost var start := Rest();
      var items := first;
      while PeekIs(Comma)
        invariant Valid() && G.NoMore(Rest(), start)
        invariant G.TupleItems(items, Rest()) == G.TupleItems(first, start)
        decreases Rest()
      {
        Bump();
        var item :- ParseInlineEndpoint();
        items := items + [item];
      }
      return Some(items);
    }

    method ParseSeq() returns (r: Option<Endpoint>)
      requires Valid() && G.Peek(Rest()) == LBracket
      modifies this`pos
      ensures Valid() && Agrees(r, G.ParseAtom(old(Rest())), Rest())
      decreases Rest(), 0
    {
      hide G.ParseInline, G.InlineList;
      Bump();
      var empty := Eat(RBracket);
      if empty {
        return Some(Seq([]));
      }
      var items :- ParseInlineList(RBracket);
      return Some(Seq(items));
    }

    /** The loop shared by sequences and guard arguments. */
    method ParseInlineList(close: Token) returns (r: Option<seq<Endpoint>>)
      requires Valid() && close != Eof
      modifies this`pos
      ensures Valid() && Agrees(r, G.InlineList([], close, old(Rest())), Rest())
      decreases Rest(), 4
    {
      hide G.ParseInline;
      ghost var start := Rest();
      var items := [];
      while true
        invariant Valid() && G.NoMore(Rest(), start)
        invariant G.InlineList(items, close, Rest()) == G.InlineList([], close, start)
        decreases Rest()
      {
        var item :- ParseInlineEndpoint();
        items := items + [item];
        var comma := Eat(Comma);
        if comma {
          var closed := Eat(close);
          if closed {
            break;
          }
        } else {
          var _ :- Expect(close);
          break;
        }
      }
      return Some(items);
    }

    /** Called behind the name of the literal; `outer` starts at the name. */
    method ParseStructLiteral(name: string, ghost outer: List) returns (r: Option<Endpoint>)
      requires Valid() && G.Peek(Rest()) == LBrace && outer == Cons(Ident(name), Rest())
      modifies this`pos
      ensures Valid() && Agrees(r, G.ParseAtom(outer), Rest())
      decreases Rest(), 5
    {
      hide G.ParseInline, G.StructFields;
      Bump();
      if PeekIs(RBrace) {
        return None;
      }
      var fields :- ParseStructFields();
      return Some(Struct(name, fields));
    }

    method ParseStructFields() returns (r: Option<seq<Field>>)
      requires Valid()
      modifies this`pos
      ensures Valid() && Agrees(r, G.StructFields([], old(Rest())), Rest())
      decreases Rest(), 4
    {
      hide G.ParseInline;
      ghost var start := Rest();
      var fields := [];
      while true
        invariant Valid() && G.NoMore(Rest(), start)
        invariant G.StructFields(fields, Rest()) == G.StructFields([], start)
        decreases Rest()
      {
        var field :- ExpectIdent();
        var _ :- Expect(Colon);
        var value :- ParseInlineEndpoint();
        fields := fields + [Field(field, value)];
        var comma := Eat(Comma);
        if comma {
          var closed := Eat(RBrace);
          if closed {
            break;
          }
        } else {
          var _ :- Expect(RBrace);
          break;
        }
      }
      return Some(fields);
    }

    method ParseInlineEndpoint() returns (r: Option<Endpoint>)
      requires Valid()
      modifies this`pos
      ensures Valid() && Agrees(r, G.ParseInline(old(Rest())), Rest())
      decreases Rest(), 3
    {
      hide G.ParseAtom, G.Stages;
      var source :- ParseEndpointAtom();
      var stages :- ParseStages();
      return Some(if stages == [] then source else Eval(source, stages));
    }

    // ---- Stages and arms ----

    /** The loop of parse_chain and parse_inline_endpoint. */
    method ParseStages() returns (r: Option<seq<Stage>>)
      requires Valid()
      modifies this`pos
      ensures Valid() && Agrees(r, G.Stages([], old(Rest())), Rest())
      decreases Rest(), 2
    {
      hide G.ParseStage;
      ghost var start := Rest();
      var stages := [];
      while PeekIs(Arrow)
        invariant Valid() && G.NoMore(Rest(), start)
        invariant G.Stages(stages, Rest()) == G.Stages([], start)
        decreases Rest()
      {
        Bump();
        var stage :- ParseStage();
        stages := stages + [stage];
      }
      return Some(stages);
    }

    method ParseStage() returns (r: Option<Stage>)
      requires Valid()
      modifies this`pos
      ensures Valid() && Agrees(r, G.ParseStage(old(Rest())), Rest())
      decreases Rest(), 2
    {
      hide G.ParseAtom, G.ParseTarget, G.WordStage;
      match PeekToken()
      case Ident(word) => r := ParseWordStage(word);
      case Variable(_) => r := ParseBind();
      case Discard => r := ParseBind();
      case LParen => r := ParseBind();
      case _ =>
        var e :- ParseEndpointAtom();
        return Some(Stage.Value(e));
    }

    method ParseBind() returns (r: Option<Stage>)
      requires Valid()
      modifies this`pos
      ensures Valid() && Agrees(r, G.BindStage(old(Rest())), Rest())
    {
      hide G.ParseTarget;
      var target :- ParseBindingTarget();
      return Some(Bind(target));
    }

    method ParseWordStage(word: string) returns (r: Option<Stage>)
      requires Valid() && G.Peek(Rest()) == Ident(word)
      modifies this`pos
      ensures Valid() && Agrees(r, G.WordStage(word, old(Rest())), Rest())
      decreases Rest(), 1
    {
      hide G.ParseNodeRef, G.RepeatStage, G.IdentityArgument, G.Arms, G.NodeStage;
      if word == "repeat" {
        Bump();
        r := ParseRepeat();
      } else if word == "reduce" {
        Bump();
        var node :- ParseNodeRef();
        var identity :- ParseIdentity();
        return Some(Reduce(node, identity));
      } else if word == "scan" {
        Bump();
        var node :- ParseNodeRef();
        var identity :- ParseIdentity();
        return Some(Scan(node, identity));
      } else if word == "match" {
        Bump();
        r := ParseMatchStage();
      } else {
        r := ParseNodeStage(word);
      }
    }

    method ParseNodeStage(word: string) returns (r: Option<Stage>)
      requires Valid() && G.Peek(Rest()) == Ident(word)
      modifies this`pos
      ensures Valid() && Agrees(r, G.NodeStage(word, old(Rest())), Rest())
    {
      hide G.ParseNodeRef, G.FaultMapStage;
      if word == "map" {
        Bump();
        var node :- ParseNodeRef();
        return Some(Stage.Map(node));
      } else if word == "fault" {
        Bump();
        r := ParseFaultMap();
      } else if word == "filter" {
        Bump();
        var node :- ParseNodeRef();
        return Some(Filter(node));
      } else if word == "field" {
        Bump();
        var name :- ExpectIdent();
        return Some(FieldOf(name));
      } else {
        var node :- ParseNodeRef();
        return Some(Stage.Value(Name(node)));
      }
    }

    method ParseFaultMap() returns (r: Option<Stage>)
      requires Valid()
      modifies this`pos
      ensures Valid() && Agrees(r, G.FaultMapStage(old(Rest())), Rest())
    {
      hide G.ParseNodeRef;
      var _ :- Expect(Ident("map"));
      var node :- ParseNodeRef();
      var _ :- Expect(LBrace);
      var _ :- Expect(Ident("ok"));
      var _ :- Expect(Arrow);
      var ok :- ExpectVariable();
      var _ :- Expect(Comma);
      var _ :- Expect(Ident("fault"));
      var _ :- Expect(Arrow);
      var fault :- ExpectVariable();
      var _ :- Expect(RBrace);
      return Some(FaultMap(node, ok, fault));
    }

    method ParseRepeat() returns (r: Option<Stage>)
      requires Valid()
      modifies this`pos
      ensures Valid() && Agrees(r, G.RepeatStage(old(Rest())), Rest())
      decreases Rest(), 2
    {
      hide G.ParseNodeRef, G.ParseAtom;
      var _ :- Expect(Less);
      if !PeekToken().Variable? && !PeekToken().Int? {
        return None;
      }
      var count :- ParseEndpointAtom();
      var _ :- Expect(Greater);
      var node :- ParseNodeRef();
      return Some(Repeat(count, node));
    }

    method ParseIdentity() returns (r: Option<Endpoint>)
      requires Valid()
      modifies this`pos
      ensures Valid() && Agrees(r, G.IdentityArgument(old(Rest())), Rest())
      decreases Rest(), 2
    {
      hide G.ParseAtom;
      var _ :- Expect(LParen);
      var _ :- Expect(Ident("identity"));
      var _ :- Expect(Colon);
      var identity :- ParseEndpointAtom();
      var _ :- Expect(RParen);
      return Some(identity);
    }

    /** Called behind the keyword. */
    method ParseMatchStage() returns (r: Option<Stage>)
      requires Valid()
      modifies this`pos
      ensures Valid()
      ensures
        var braced := G.Expect(LBrace, old(Rest()));
        if braced.Fail? then r.None?
        else
          match G.Arms([], false, braced.rest)
          case Fail => r.None?
          case Ok(arms, k) => r == Some(Match(arms)) && Rest() == k
      decreases Rest(), 4
    {
      hide G.Guard, G.ParseMatchTarget;
      var _ :- Expect(LBrace);
      ghost var start := Rest();
      var arms, sawFallback := [], false;
      while !PeekIs(RBrace)
        invariant Valid() && G.NoMore(Rest(), start)
        invariant G.Arms(arms, sawFallback, Rest()) == G.Arms([], false, start)
        decreases Rest()
      {
        if sawFallback {
          return None;
        }
        var guard :- ParseGuard();
        sawFallback := guard.Fallback?;
        var _ :- Expect(Arrow);
        var target :- ParseMatchTarget();
        arms := arms + [MatchArm(guard, target)];
      }
      Bump();
      if arms == [] || !sawFallback {
        return None;
      }
      return Some(Match(arms));
    }

    method ParseGuard() returns (r: Option<MatchGuard>)
      requires Valid()
      modifies this`pos
      ensures Valid() && Agrees(r, G.Guard(old(Rest())), Rest())
      decreases Rest(), 3
    {
      hide G.ParseNodeRef, G.InlineList;
      if PeekIs(Ident("_")) {
        Bump();
        return Some(Fallback);
      }
      var node :- ParseNodeRef();
      var _ :- Expect(LParen);
      var empty := Eat(RParen);
      if empty {
        return Some(Call(node, []));
      }
      var args :- ParseInlineList(RParen);
      return Some(Call(node, args));
    }

    method ParseMatchTarget() returns (r: Option<MatchTarget>)
      requires Valid()
      modifies this`pos
      ensures Valid() && Agrees(r, G.ParseMatchTarget(old(Rest())), Rest())
      decreases Rest(), 4
    {
      hide G.ParseNodeRef, G.ParseInline;
      if PeekToken().Ident? {
        var node :- ParseNodeRef();
        return Some(ToNode(node));
      }
      var e :- ParseInlineEndpoint();
      return Some(ToValue(e));
    }

    // ---- Types and ports ----

    method ParseTypeName() returns (r: Option<TypeText>)
      requires Valid()
      modifies this`pos
      ensures Valid() && Agrees(r, G.ParseType(old(Rest())), Rest())
    {
      ghost var start := Rest();
      var text := [];
      var depth: nat := 0;
      while G.ContinuesType(text == [], depth, PeekToken())
        invariant Valid()
        invariant G.TypeTail(text, depth, Rest()) == G.TypeTail([], 0, start)
        decreases Rest()
      {
        var t := PeekToken();
        text := text + [t];
        match t {
          case LParen => depth := depth + 1;
          case LBracket => depth := depth + 1;
          case RParen => depth := depth - 1;
          case RBracket => depth := depth - 1;
          case _ =>
        }
        Bump();
      }
      if !G.StopsType(PeekToken()) || text == [] || depth != 0 {
        return None;
      }
      return Some(text);
    }

    method ParsePort() returns (r: Option<Port>)
      requires Valid()
      modifies this`pos
      ensures Valid() && Agrees(r, G.ParsePort(old(Rest())), Rest())
    {
      hide G.ParseType;
      var name :- ExpectIdent();
      var _ :- Expect(Colon);
      var ty :- ParseTypeName();
      return Some(Port(name, ty));
    }

    method ParsePortList() returns (r: Option<seq<Port>>)
      requires Valid()
      modifies this`pos
      ensures Valid() && Agrees(r, G.PortList(old(Rest())), Rest())
    {
      hide G.ParsePort;
      var first :- ParsePort();
      var ports := [first];
      ghost var start := Rest();
      while PeekIs(Comma)
        invariant Valid()
        invariant G.PortTail(ports, Rest()) == G.PortTail([first], start)
        decreases Rest()
      {
        Bump();
        var port :- ParsePort();
        ports := ports + [port];
      }
      return Some(ports);
    }

    method ParsePortOrList() returns (r: Option<seq<Port>>)
      requires Valid()
      modifies this`pos
      ensures Valid() && Agrees(r, G.PortOrList(old(Rest())), Rest())
    {
      hide G.ParsePort, G.PortList;
      var list := Eat(LParen);
      if list {
        var ports :- ParsePortList();
        var _ :- Expect(RParen);
        return Some(ports);
      }
      var port :- ParsePort();
      return Some([port]);
    }

    method ParseInputs() returns (r: Option<seq<Port>>)
      requires Valid()
      modifies this`pos
      ensures Valid() && Agrees(r, G.Inputs(old(Rest())), Rest())
    {
      hide G.PortList;
      var _ :- Expect(LParen);
      var empty := Eat(RParen);
      if empty {
        return Some([]);
      }
      var ports :- ParsePortList();
      var _ :- Expect(RParen);
      return Some(ports);
    }

    // ---- Declarations ----

    method ParseTypeAlias() returns (r: Option<Decl>)
      requires Valid()
      modifies this`pos
      ensures Valid() && Agrees(r, G.ParseAlias(old(Rest())), Rest())
    {
      hide G.ParseType;
      var name :- ExpectIdent();
      var _ :- Expect(Equal);
      var ty :- ParseTypeName();
      return Some(TypeAlias(name, ty));
    }

    method ParseStructDecl() returns (r: Option<Decl>)
      requires Valid()
      modifies this`pos
      ensures Valid() && Agrees(r, G.ParseStruct(old(Rest())), Rest())
    {
      hide G.ParsePort;
      var name :- ExpectIdent();
      var _ :- Expect(LBrace);
      if PeekIs(RBrace) {
        return None;
      }
      ghost var start := Rest();
      var fields := [];
      while true
        invariant Valid()
        invariant G.StructPorts(fields, Rest()) == G.StructPorts([], start)
        decreases Rest()
      {
        var field :- ParsePort();
        fields := fields + [field];
        var comma := Eat(Comma);
        if comma {
          var closed := Eat(RBrace);
          if closed {
            break;
          }
        } else {
          var _ :- Expect(RBrace);
          break;
        }
      }
      return Some(StructDecl(name, fields));
    }

    method ParseImport() returns (r: Option<Decl>)
      requires Valid()
      modifies this`pos
      ensures Valid() && Agrees(r, G.ParseImport(old(Rest())), Rest())
    {
      hide G.ParseSource, G.ImportItems;
      var source :- ParseSource();
      if PeekIs(Ident("as")) {
        Bump();
        var alias :- ExpectIdent();
        return Some(Import(source, As(alias)));
      }
      var _ :- Expect(LBrace);
      var items :- ParseImportItems();
      return Some(Import(source, Items(items)));
    }

    method ParseSource() returns (r: Option<ImportSource>)
      requires Valid()
      modifies this`pos
      ensures Valid() && Agrees(r, G.ParseSource(old(Rest())), Rest())
    {
      hide G.QIdent;
      match PeekToken()
      case Str(path) =>
        Bump();
        return Some(FromFile(path));
      case Ident(_) =>
        var path :- ParseQualifiedIdent();
        return Some(FromModule(path));
      case _ => return None;
    }

    method ParseImportItems() returns (r: Option<seq<ImportItem>>)
      requires Valid()
      modifies this`pos
      ensures Valid() && Agrees(r, G.ImportItems([], old(Rest())), Rest())
    {
      ghost var start := Rest();
      var items := [];
      while true
        invariant Valid()
        invariant G.ImportItems(items, Rest()) == G.ImportItems([], start)
        decreases Rest()
      {
        var item :- ParseItem();
        items := items + [item];
        var comma := Eat(Comma);
        if comma {
          var closed := Eat(RBrace);
          if closed {
            break;
          }
        } else {
          var _ :- Expect(RBrace);
          break;
        }
      }
      return Some(items);
    }

    method ParseItem() returns (r: Option<ImportItem>)
      requires Valid()
      modifies this`pos
      ensures Valid() && Agrees(r, G.ParseItem(old(Rest())), Rest())
    {
      var name :- ExpectIdent();
      if !PeekIs(Ident("as")) {
        return Some(ImportItem(name, None));
      }
      Bump();
      var alias :- ExpectIdent();
      return Some(ImportItem(name, Some(alias)));
    }

    method ParseForeign() returns (r: Option<Decl>)
      requires Valid()
      modifies this`pos
      ensures Valid() && Agrees(r, G.ParseForeign(old(Rest())), Rest())
    {
      hide G.ParseForeignHead, G.ParseForeignNode;
      var head :- ParseForeignHead();
      var _ :- Expect(LBrace);
      ghost var start := Rest();
      var nodes := [];
      while !PeekIs(RBrace)
        invariant Valid()
        invariant G.ForeignNodes(nodes, Rest()) == G.ForeignNodes([], start)
        decreases Rest()
      {
        var node :- ParseForeignNode();
        nodes := nodes + [node];
      }
      Bump();
      if nodes == [] {
        return None;
      }
      return Some(Foreign(head.0, head.1, nodes));
    }

    method ParseForeignHead() returns (r: Option<(ForeignTarget, ForeignSource)>)
      requires Valid()
      modifies this`pos
      ensures Valid() && Agrees(r, G.ParseForeignHead(old(Rest())), Rest())
    {
      var language :- ExpectIdent();
      if language == "js" {
        var kind :- ExpectIdent();
        if kind != "module" && kind != "global" {
          return None;
        }
        var text :- ExpectString();
        return Some((Js, if kind == "module" then JsModule(text) else JsGlobal(text)));
      } else if language == "c" {
        var kind :- ExpectIdent();
        if kind != "header" {
          return None;
        }
        var header :- ExpectString();
        if !PeekIs(Ident("source")) {
          return Some((C, CHeader(header, None)));
        }
        Bump();
        var file :- ExpectString();
        return Some((C, CHeader(header, Some(file))));
      }
      return None;
    }

    method ParseForeignNode() returns (r: Option<ForeignNode>)
      requires Valid()
      modifies this`pos
      ensures Valid() && Agrees(r, G.ParseForeignNode(old(Rest())), Rest())
    {
      hide G.Inputs, G.PortOrList, G.QIdent;
      var effect :- ExpectIdent();
      if effect != "pure" && effect != "io" {
        return None;
      }
      var _ :- Expect(Ident("node"));
      var name :- ExpectIdent();
      var inputs :- ParseInputs();
      var _ :- Expect(Arrow);
      var outputs :- ParsePortOrList();
      var _ :- Expect(Equal);
      var symbol :- ParseQualifiedIdent();
      return Some(ForeignNode(name, if effect == "pure" then Pure else Io, inputs, outputs, symbol));
    }

    method ParseNodeParams() returns (r: Option<seq<NodeParam>>)
      requires Valid()
      modifies this`pos
      ensures Valid() && Agrees(r, G.ParseNodeParams(old(Rest())), Rest())
    {
      hide G.ParseParam;
      var some := Eat(Less);
      if !some {
        return Some([]);
      }
      if PeekIs(Greater) {
        return None;
      }
      ghost var start := Rest();
      var params := [];
      while true
        invariant Valid()
        invariant G.NodeParams(params, Rest()) == G.NodeParams([], start)
        decreases Rest()
      {
        var param :- ParseNodeParam();
        params := params + [param];
        var comma := Eat(Comma);
        if comma {
          var closed := Eat(Greater);
          if closed {
            break;
          }
        } else {
          var _ :- Expect(Greater);
          break;
        }
      }
      return Some(params);
    }

    method ParseNodeParam() returns (r: Option<NodeParam>)
      requires Valid()
      modifies this`pos
      ensures Valid() && Agrees(r, G.ParseParam(old(Rest())), Rest())
    {
      hide G.ParamInput, G.ParseType;
      var name :- ExpectIdent();
      var _ :- Expect(Colon);
      var _ :- Expect(Ident("node"));
      var input :- ParseParamInput();
      var _ :- Expect(Arrow);
      var output :- ParseTypeName();
      return Some(NodeParam(name, input, output));
    }

    method ParseParamInput() returns (r: Option<TypeText>)
      requires Valid()
      modifies this`pos
      ensures Valid() && Agrees(r, G.ParamInput(old(Rest())), Rest())
    {
      hide G.ParseType;
      var _ :- Expect(LParen);
      var unit := Eat(RParen);
      if unit {
        return Some([LParen, RParen]);
      }
      var ty :- ParseTypeName();
      var _ :- Expect(RParen);
      return Some(ty);
    }

    method ParseChain() returns (r: Option<Chain>)
      requires Valid()
      modifies this`pos
      ensures Valid() && Agrees(r, G.ParseChain(old(Rest())), Rest())
    {
      hide G.ParseAtom, G.Stages;
      var source :- ParseEndpointAtom();
      var stages :- ParseStages();
      if stages == [] {
        return None;
      }
      return Some(Chain(source, stages));
    }

    method ParseBlock() returns (r: Option<seq<Chain>>)
      requires Valid()
      modifies this`pos
      ensures Valid() && Agrees(r, G.Chains([], old(Rest())), Rest())
    {
      hide G.ParseChain;
      ghost var start := Rest();
      var chains := [];
      while !PeekIs(RBrace)
        invariant Valid()
        invariant G.Chains(chains, Rest()) == G.Chains([], start)
        decreases Rest()
      {
        var chain :- ParseChain();
        chains := chains + [chain];
      }
      Bump();
      return Some(chains);
    }

    method ParseCallable(isExtern: bool) returns (r: Option<Callable>)
      requires Valid()
      modifies this`pos
      ensures Valid() && Agrees(r, G.ParseCallable(isExtern, old(Rest())), Rest())
    {
      hide G.ParseNodeParams, G.Inputs, G.PortOrList, G.Chains;
      var name :- ExpectIdent();
      var nodeParams :- ParseNodeParams();
      var inputs :- ParseInputs();
      var _ :- Expect(Arrow);
      var outputs :- ParsePortOrList();
      var _ :- Expect(LBrace);
      var chains :- ParseBlock();
      return Some(Callable(name, isExtern, nodeParams, inputs, outputs, chains));
    }

    method ParseDecl() returns (r: Option<Decl>)
      requires Valid()
      modifies this`pos
      ensures Valid() && Agrees(r, G.ParseDecl(old(Rest())), Rest())
    {
      hide G.ParseAlias, G.ParseStruct, G.ParseImport, G.ParseForeign, G.ParseCallable;
      if !PeekToken().Ident? {
        return None;
      }
      var word := PeekToken().name;
      if !G.IsDeclarationWord(word) {
        return None;
      }
      Bump();
      if word == "type" {
        r := ParseTypeAlias();
      } else if word == "struct" {
        r := ParseStructDecl();
      } else if word == "import" {
        r := ParseImport();
      } else if word == "foreign" {
        r := ParseForeign();
      } else if word == "extern" {
        var _ :- Expect(Ident("node"));
        var callable :- ParseCallable(true);
        return Some(Decl.Node(callable));
      } else if word == "node" {
        var callable :- ParseCallable(false);
        return Some(Decl.Node(callable));
      } else {
        var callable :- ParseCallable(false);
        return Some(Program(callable));
      }
    }

    /** Parses everything: the result is that of the grammar on the tokens the parser was made for. */
    method ParseModule() returns (r: Option<Module>)
      requires Valid()
      modifies this`pos
      ensures Valid() && r == G.ParseModule(old(Rest()))
    {
      hide G.ParseDecl;
      ghost var start := Rest();
      var declarations := [];
      while PeekToken() != Eof
        invariant Valid()
        invariant G.Decls(declarations, Rest()) == G.Decls([], start)
        decreases Rest()
      {
        var decl :- ParseDecl();
        declarations := declarations + [decl];
      }
      return Some(Module(declarations));
    }
  }
}
