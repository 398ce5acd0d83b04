/** The typed dataflow graphs that src/typecheck.rs hands to the code generators. */
module Typed {
  import Ast
  import opened Types

  type SymbolId = nat

  datatype TypedEndpoint = TypedEndpoint(ty: Ty, kind: EndpointKind)

  datatype EndpointKind =
    | Variable(name: string)
    | NodeRef(name: string)
    | Int(n: int)
    | Real(r: real)
    | RealF32(r: real)
    | Bool(flag: bool)
    | Str(chars: string)
    | Unit
    | Tuple(items: seq<TypedEndpoint>)
    | Seq(items: seq<TypedEndpoint>)
    | Struct(name: string, fields: seq<TypedField>)
    | Eval(source: TypedEndpoint, stages: seq<TypedStage>)

  datatype TypedField = TypedField(name: string, value: TypedEndpoint)

  datatype TypedStage = TypedStage(input: Ty, output: Ty, kind: StageKind)

  datatype StageKind =
    | Call(name: string, symbol: Ast.Option<SymbolId>)
    | Bind(target: Ast.BindingTarget)
    | Map(name: string)
    | FaultMap(node: string, ok: string, fault: string)
    | Filter(name: string)
    | FieldOf(name: string)
    | Repeat(node: string, count: TypedEndpoint)
    | Reduce(op: string, identity: TypedEndpoint)
    | Scan(op: string, identity: TypedEndpoint)
    | Match(arms: seq<TypedArm>)

  datatype TypedArm = TypedArm(guard: TypedGuard, target: TypedTarget, output: Ty)

  datatype TypedGuard = GuardCall(node: string, args: seq<TypedEndpoint>) | GuardFallback

  datatype TypedTarget = TargetNode(name: string) | TargetValue(value: TypedEndpoint)

  datatype TypedPort = TypedPort(name: string, ty: Ty)

  datatype TypedChain = TypedChain(source: TypedEndpoint, stages: seq<TypedStage>)

  datatype TypedCallable = TypedCallable(
    id: Ast.Option<SymbolId>, name: string, pure: bool,
    inputs: seq<TypedPort>, outputs: seq<TypedPort>, chains: seq<TypedChain>)
}
