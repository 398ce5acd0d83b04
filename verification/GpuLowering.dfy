/** The scalar kernels of src/codegen/gpu.rs: a callable inlined to one expression over `x`. */
module GpuLowering {
  import opened Ast
  import opened Types
  import opened Typed
  import opened GraphRun

  datatype GpuExpr =
    | XVar(name: string)
    | XReal(r: real)
    | XInt(n: int)
    | XBool(flag: bool)
    | XTuple(items: seq<GpuExpr>)
    | XUnary(op: UnaryOp, value: GpuExpr)
    | XBinary(op2: BinaryOp, left: GpuExpr, right: GpuExpr)
    | XSelect(pred: GpuExpr, whenTrue: GpuExpr, whenFalse: GpuExpr)

  datatype UnaryOp = Neg | Abs | Sqrt | Exp | Sin | Cos | Not

  datatype BinaryOp = Add | Sub | Mul | Div | Eq | Lt | Gt | Le | Ge | And | Or | Xor

  type ExprEnv = map<string, GpuExpr>

  // ---- What lowering returns ----

  function UnaryNamed(name: string): Option<UnaryOp>
  {
    if name == "neg" then Some(Neg) else if name == "abs" then Some(Abs) else if name == "sqrt" then Some(Sqrt)
    else if name == "exp" then Some(Exp) else if name == "sin" then Some(Sin) else if name == "cos" then Some(Cos)
    else if name == "not" then Some(Not) else None
  }

  function BinaryNamed(name: string): Option<BinaryOp>
  {
    if name == "add" then Some(Add) else if name == "sub" then Some(Sub) else if name == "mul" then Some(Mul)
    else if name == "div" then Some(Div) else if name == "eq" then Some(Eq) else if name == "lt" then Some(Lt)
    else if name == "gt" then Some(Gt) else if name == "le" then Some(Le) else if name == "ge" then Some(Ge)
    else if name == "and" then Some(And) else if name == "or" then Some(Or) else if name == "xor" then Some(Xor)
    else None
  }

  function LowerBuiltin(name: string, input: GpuExpr): Option<GpuExpr>
  {
    if BinaryNamed(name).Some? then
      if input.XTuple? && |input.items| == 2 then Some(XBinary(BinaryNamed(name).value, input.items[0], input.items[1]))
      else None
    else if UnaryNamed(name).Some? then Some(XUnary(UnaryNamed(name).value, input))
    else if name == "from_int" || name == "from_int_f32" then if input.XInt? then Some(input) else None
    else if name == "select" then
      if input.XTuple? && |input.items| == 3 then Some(XSelect(input.items[0], input.items[1], input.items[2]))
      else None
    else None
  }

  function BindExpr(t: BindingTarget, value: GpuExpr, env: ExprEnv): Option<ExprEnv>
    decreases t, 0
  {
    match t
    case Drop => Some(env)
    case Bound(x) => Some(env[x := value])
    case Both(items) =>
      if value.XTuple? && |value.items| == |items| then BindExprs(items, value.items, env) else None
  }

  function BindExprs(ts: seq<BindingTarget>, values: seq<GpuExpr>, env: ExprEnv): Option<ExprEnv>
    requires |ts| == |values|
    decreases ts, 0
  {
    if ts == [] then Some(env) else
      var next :- BindExpr(ts[0], values[0], env);
      BindExprs(ts[1..], values[1..], next)
  }

  function LowerEndpoint(names: SymbolNames, e: TypedEndpoint, env: ExprEnv, fuel: nat): Option<GpuExpr>
    decreases fuel, 1, e, 0
  {
    match e.kind
    case Variable(x) => if x in env then Some(env[x]) else None
    case Int(n) => Some(XInt(n))
    case Real(r) => Some(XReal(r))
    case RealF32(r) => Some(XReal(r))
    case Bool(b) => Some(XBool(b))
    case Tuple(items) =>
      var xs :- LowerItems(names, items, env, fuel);
      Some(XTuple(xs))
    case Eval(source, stages) =>
      var value :- LowerEndpoint(names, source, env, fuel);
      var r :- LowerStages(names, stages, value, env, fuel);
      Some(r.0)
    case _ => None
  }

  function LowerItems(names: SymbolNames, items: seq<TypedEndpoint>, env: ExprEnv, fuel: nat): Option<seq<GpuExpr>>
    decreases fuel, 1, items, 0
  {
    if items == [] then Some([]) else
      var x :- LowerEndpoint(names, items[0], env, fuel);
      var xs :- LowerItems(names, items[1..], env, fuel);
      Some([x] + xs)
  }

  function LowerStages(names: SymbolNames, stages: seq<TypedStage>, value: GpuExpr, env: ExprEnv, fuel: nat)
    : Option<(GpuExpr, ExprEnv)>
    decreases fuel, 1, stages, 0
  {
    if stages == [] then Some((value, env)) else
      match stages[0].kind
      case Call(name, symbol) =>
        var next :- LowerCall(names, name, symbol, value, fuel);
        LowerStages(names, stages[1..], next, env, fuel)
      case Bind(target) =>
        var env' :- BindExpr(target, value, env);
        LowerStages(names, stages[1..], value, env', fuel)
      case _ => None
  }

  function LowerChains(names: SymbolNames, chains: seq<TypedChain>, env: ExprEnv, fuel: nat): Option<ExprEnv>
    decreases fuel, 2, |chains|, 0
  {
    if chains == [] then Some(env) else
      var value :- LowerEndpoint(names, chains[0].source, env, fuel);
      var r :- LowerStages(names, chains[0].stages, value, env, fuel);
      LowerChains(names, chains[1..], r.1, fuel)
  }

  /** A callable with one input is inlined; its first output is its value. */
  function LowerCall(names: SymbolNames, name: string, symbol: Option<SymbolId>, input: GpuExpr, fuel: nat)
    : Option<GpuExpr>
    decreases fuel, 0, 0, 0
  {
    var found := CallableOf(names, name, symbol);
    if found.Some? && |found.value.inputs| == 1 then
      var c := found.value;
      if c.outputs == [] || fuel == 0 then None else
        var env :- LowerChains(names, c.chains, map[c.inputs[0].name := input], fuel - 1);
        if c.outputs[0].name in env then Some(env[c.outputs[0].name]) else None
    else LowerBuiltin(BuiltinOf(names, name, symbol), input)
  }

  datatype Kind = KI32 | KF32 | KF64

  function KindOf(c: TypedCallable): Option<Kind>
  {
    if !c.pure || |c.inputs| != 1 || |c.outputs| != 1 || c.inputs[0].ty != c.outputs[0].ty then None
    else
      match c.inputs[0].ty
      case I32 => Some(KI32)
      case F32 => Some(KF32)
      case F64 => Some(KF64)
      case _ => None
  }

  function LowerCallable(names: SymbolNames, c: TypedCallable, fuel: nat): Option<GpuExpr>
  {
    if KindOf(c).None? then None else
      var env :- LowerChains(names, c.chains, map[c.inputs[0].name := XVar("x")], fuel);
      if c.outputs[0].name in env then Some(env[c.outputs[0].name]) else None
  }

  // ---- The loops that compute it ----

  method BindTargetExpr(t: BindingTarget, value: GpuExpr, env: ExprEnv) returns (next: Option<ExprEnv>)
    ensures next == BindExpr(t, value, env)
    decreases t
  {
    match t
    case Drop => return Some(env);
    case Bound(x) => return Some(env[x := value]);
    case Both(items) =>
      if !value.XTuple? || |value.items| != |items| {
        return None;
      }
      var current := env;
      for i := 0 to |items|
        invariant BindExprs(items[i..], value.items[i..], current) == BindExprs(items, value.items, env)
      {
        assert items[i..][1..] == items[i + 1..] && value.items[i..][1..] == value.items[i + 1..];
        var r := BindTargetExpr(items[i], value.items[i], current);
        if r.None? {
          return None;
        }
        current := r.value;
      }
      return Some(current);
  }

  method LowerTypedEndpoint(names: SymbolNames, e: TypedEndpoint, env: ExprEnv, fuel: nat) returns (x: Option<GpuExpr>)
    ensures x == LowerEndpoint(names, e, env, fuel)
    decreases fuel, 1, e, 0
  {
    match e.kind
    case Variable(name) => return if name in env then Some(env[name]) else None;
    case Int(n) => return Some(XInt(n));
    case Real(r) => return Some(XReal(r));
    case RealF32(r) => return Some(XReal(r));
    case Bool(b) => return Some(XBool(b));
    case Tuple(items) =>
      var xs := LowerItemList(names, items, env, fuel);
      return if xs.None? then None else Some(XTuple(xs.value));
    case Eval(source, stages) =>
      var value := LowerTypedEndpoint(names, source, env, fuel);
      if value.None? {
        return None;
      }
      var r := LowerStageList(names, stages, value.value, env, fuel);
      return if r.None? then None else Some(r.value.0);
    case _ => return None;
  }

  method LowerItemList(names: SymbolNames, items: seq<TypedEndpoint>, env: ExprEnv,
      fuel: nat) returns (r: Option<seq<GpuExpr>>)
    ensures r == LowerItems(names, items, env, fuel)
    decreases fuel, 1, items, 0
  {
    var xs: seq<GpuExpr> := [];
    for i := 0 to |items|
      invariant LowerItems(names, items[i..], env, fuel).Some? <==> LowerItems(names, items, env, fuel).Some?
      invariant LowerItems(names, items, env, fuel).Some? ==>
        LowerItems(names, items, env, fuel).value == xs + LowerItems(names, items[i..], env, fuel).value
    {
      assert items[i..][1..] == items[i + 1..];
      var item := LowerTypedEndpoint(names, items[i], env, fuel);
      if item.None? {
        return None;
      }
      xs := xs + [item.value];
    }
    assert items[|items|..] == [] && xs + [] == xs;
    return Some(xs);
  }

  method LowerStageList(names: SymbolNames, stages: seq<TypedStage>, source: GpuExpr, env: ExprEnv, fuel: nat)
    returns (r: Option<(GpuExpr, ExprEnv)>)
    ensures r == LowerStages(names, stages, source, env, fuel)
    decreases fuel, 1, stages, 0
  {
    var value, local := source, env;
    for i := 0 to |stages|
      invariant LowerStages(names, stages[i..], value, local, fuel) == LowerStages(names, stages, source, env, fuel)
    {
      assert stages[i..][1..] == stages[i + 1..];
      match stages[i].kind {
        case Call(name, symbol) =>
          var next := LowerNodeCall(names, name, symbol, value, fuel);
          if next.None? {
            return None;
          }
          value := next.value;
        case Bind(target) =>
          var next := BindTargetExpr(target, value, local);
          if next.None? {
            return None;
          }
          local := next.value;
        case _ => return None;
      }
    }
    return Some((value, local));
  }

  method LowerChainList(names: SymbolNames, chains: seq<TypedChain>, start: ExprEnv, fuel: nat)
    returns (r: Option<ExprEnv>)
    ensures r == LowerChains(names, chains, start, fuel)
    decreases fuel, 2, 0, 0
  {
    var env := start;
    for i := 0 to |chains|
      invariant LowerChains(names, chains[i..], env, fuel) == LowerChains(names, chains, start, fuel)
    {
      assert chains[i..][1..] == chains[i + 1..];
      var value := LowerTypedEndpoint(names, chains[i].source, env, fuel);
      if value.None? {
        return None;
      }
      var next := LowerStageList(names, chains[i].stages, value.value, env, fuel);
      if next.None? {
        return None;
      }
      env := next.value.1;
    }
    return Some(env);
  }

  method LowerNodeCall(names: SymbolNames, name: string, symbol: Option<SymbolId>, input: GpuExpr, fuel: nat)
    returns (r: Option<GpuExpr>)
    ensures r == LowerCall(names, name, symbol, input, fuel)
    decreases fuel, 0, 0, 0
  {
    var found := CallableOf(names, name, symbol);
    if found.Some? && |found.value.inputs| == 1 {
      var c := found.value;
      if c.outputs == [] || fuel == 0 {
        return None;
      }
      var env := LowerChainList(names, c.chains, map[c.inputs[0].name := input], fuel - 1);
      if env.None? || c.outputs[0].name !in env.value {
        return None;
      }
      return Some(env.value[c.outputs[0].name]);
    }
    return LowerBuiltin(BuiltinOf(names, name, symbol), input);
  }

  method LowerKernel(names: SymbolNames, c: TypedCallable, fuel: nat) returns (r: Option<GpuExpr>)
    ensures r == LowerCallable(names, c, fuel)
  {
    if KindOf(c).None? {
      return None;
    }
    var env := LowerChainList(names, c.chains, map[c.inputs[0].name := XVar("x")], fuel);
    if env.None? || c.outputs[0].name !in env.value {
      return None;
    }
    return Some(env.value[c.outputs[0].name]);
  }
}
