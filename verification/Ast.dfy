/** The syntax trees of src/ast.rs. */
module Ast {
  import opened Tokens

  /** A dotted name, one entry for each segment. */
  type QName = seq<string>

  /** `base` or `base<arg, ...>`; the program keeps it as one string, see src/node_ref.rs. */
  datatype NodeRef = NodeRef(base: QName, args: seq<QName>)

  /** A type annotation as the tokens it was read from; the program concatenates their texts. */
  type TypeText = seq<Token>

  datatype Module = Module(declarations: seq<Decl>)

  datatype Decl =
    | TypeAlias(alias: string, ty: TypeText)
    | StructDecl(name: string, fields: seq<Port>)
    | Import(source: ImportSource, clause: ImportClause)
    | Foreign(language: ForeignTarget, origin: ForeignSource, nodes: seq<ForeignNode>)
    | Node(callable: Callable)
    | Program(callable: Callable)

  datatype ImportSource = FromModule(path: QName) | FromFile(file: string)

  datatype ImportClause = As(alias: string) | Items(items: seq<ImportItem>)

  datatype ImportItem = ImportItem(name: string, alias: Option<string>)

  datatype Option<+T> = None | Some(value: T) {
    predicate IsFailure() { None? }

    function PropagateFailure<U>(): Option<U>
      requires None?
    {
      None
    }

    function Extract(): T
      requires Some?
    {
      value
    }
  }

  datatype ForeignTarget = Js | C

  datatype ForeignSource =
    | JsModule(specifier: string)
    | JsGlobal(global: string)
    | CHeader(header: string, implementation: Option<string>)

  datatype ForeignNode = ForeignNode(
    name: string, effect: ForeignEffect, inputs: seq<Port>, outputs: seq<Port>, symbol: QName)

  datatype ForeignEffect = Pure | Io

  datatype Callable = Callable(
    name: string, isExtern: bool, nodeParams: seq<NodeParam>,
    inputs: seq<Port>, outputs: seq<Port>, chains: seq<Chain>)

  datatype NodeParam = NodeParam(name: string, input: TypeText, output: TypeText)

  datatype Port = Port(name: string, ty: TypeText)

  datatype Chain = Chain(source: Endpoint, stages: seq<Stage>)

  datatype Endpoint =
    | Variable(name: string)
    | Name(node: NodeRef)
    | Int(value: int)
    | Real(text: string)
    | RealF32(text: string)
    | Bool(flag: bool)
    | Str(chars: string)
    | Unit
    | Tuple(items: seq<Endpoint>)
    | Seq(items: seq<Endpoint>)
    | Struct(typeName: string, fields: seq<Field>)
    | Eval(source: Endpoint, stages: seq<Stage>)

  datatype Field = Field(name: string, value: Endpoint)

  datatype Stage =
    | Value(endpoint: Endpoint)
    | Bind(target: BindingTarget)
    | Map(node: NodeRef)
    | FaultMap(node: NodeRef, ok: string, fault: string)
    | Filter(node: NodeRef)
    | FieldOf(field: string)
    | Repeat(count: Endpoint, node: NodeRef)
    | Reduce(node: NodeRef, identity: Endpoint)
    | Scan(node: NodeRef, identity: Endpoint)
    | Match(arms: seq<MatchArm>)

  datatype BindingTarget = Drop | Bound(name: string) | Both(items: seq<BindingTarget>)

  datatype MatchArm = MatchArm(guard: MatchGuard, target: MatchTarget)

  datatype MatchGuard = Call(node: NodeRef, args: seq<Endpoint>) | Fallback

  datatype MatchTarget = ToNode(node: NodeRef) | ToValue(endpoint: Endpoint)

}
