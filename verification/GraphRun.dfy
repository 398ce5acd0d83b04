/** Running the scalar part of a typed graph: numbers, booleans, tuples, and the faults that integer arithmetic raises. */
module GraphRun {
  import opened Ast
  import opened Types
  import opened Typed

  datatype Value =
    | I32V(n: int)
    | I64V(n: int)
    | RealV(r: real)
    | BoolV(flag: bool)
    | TupleV(items: seq<Value>)
    | OkV(value: Value)
    | FaultV

  type Env = map<string, Value>

  /** The functions of real numbers that are not looked into, and the nodes that are not modelled. */
  datatype World = World(
    sqrt: real -> real, exp: real -> real, sin: real -> real, cos: real -> real,
    other: (string, Value) -> Option<Value>)

  // ---- The callables and built-in nodes of a module (src/codegen/gpu.rs:196-239) ----

  datatype SymbolNames = SymbolNames(
    byName: map<string, TypedCallable>, byId: map<SymbolId, TypedCallable>, builtins: map<SymbolId, string>)

  function CallableOf(names: SymbolNames, name: string, symbol: Option<SymbolId>): Option<TypedCallable>
  {
    if symbol.Some? && symbol.value in names.byId then Some(names.byId[symbol.value])
    else if name in names.byName then Some(names.byName[name])
    else None
  }

  function BuiltinOf(names: SymbolNames, name: string, symbol: Option<SymbolId>): string
  {
    if symbol.Some? && symbol.value in names.builtins then names.builtins[symbol.value] else name
  }

  // ---- Faults ----

  /** A fault, a value that might have been one, or a tuple with such an item. */
  predicate Faulty(v: Value)
  {
    match v
    case OkV(_) => true
    case FaultV => true
    case TupleV(items) => exists i :: 0 <= i < |items| && Faulty(items[i])
    case _ => false
  }

  /** The value without its successes, or nothing when there is a fault in it. */
  function Unwrap(v: Value): Option<Value>
    decreases v, 0
  {
    match v
    case OkV(w) => Unwrap(w)
    case FaultV => None
    case TupleV(items) =>
      var vs :- UnwrapAll(items);
      Some(TupleV(vs))
    case _ => Some(v)
  }

  function UnwrapAll(vs: seq<Value>): Option<seq<Value>>
    decreases vs, 0
  {
    if vs == [] then Some([]) else
      var first :- Unwrap(vs[0]);
      var rest :- UnwrapAll(vs[1..]);
      Some([first] + rest)
  }

  /** What a node that takes no faults returns for a faulty value, given its result on the unwrapped one. */
  function Lifted(w: Option<Value>): Option<Value>
  {
    if w.None? || w.value.OkV? || w.value.FaultV? then w else Some(OkV(w.value))
  }

  // ---- Built-in nodes ----

  predicate FitsI32(n: int) { -0x8000_0000 <= n < 0x8000_0000 }

  predicate FitsI64(n: int) { -0x8000_0000_0000_0000 <= n < 0x8000_0000_0000_0000 }

  function Truncated(a: int, b: int): int
    requires b != 0
  {
    var q := (if a < 0 then -a else a) / (if b < 0 then -b else b);
    if (a < 0) == (b < 0) then q else -q
  }

  function OfI32(n: int): Value { if FitsI32(n) then OkV(I32V(n)) else FaultV }

  function OfI64(n: int): Value { if FitsI64(n) then OkV(I64V(n)) else FaultV }

  predicate IsComparison(name: string) { name in ["eq", "lt", "gt", "le", "ge"] }

  function CompareInts(name: string, a: int, b: int): bool
  {
    if name == "eq" then a == b else if name == "lt" then a < b else if name == "gt" then a > b
    else if name == "le" then a <= b else a >= b
  }

  function CompareReals(name: string, a: real, b: real): bool
  {
    if name == "eq" then a == b else if name == "lt" then a < b else if name == "gt" then a > b
    else if name == "le" then a <= b else a >= b
  }

  predicate IsArithmetic(name: string) { name in ["add", "sub", "mul", "div"] }

  /** The result before the range check; no result for a division by zero. */
  function IntArithmetic(name: string, a: int, b: int): Option<int>
  {
    if name == "add" then Some(a + b) else if name == "sub" then Some(a - b) else if name == "mul" then Some(a * b)
    else if b == 0 then None else Some(Truncated(a, b))
  }

  /** Integer arithmetic and every division may fault; the other real operations never do. */
  function Pair(world: World, name: string, a: Value, b: Value): Option<Value>
  {
    if IsArithmetic(name) then
      match (a, b)
      case (I32V(m), I32V(n)) =>
        var r := IntArithmetic(name, m, n);
        Some(if r.None? then FaultV else OfI32(r.value))
      case (I64V(m), I64V(n)) =>
        var r := IntArithmetic(name, m, n);
        Some(if r.None? then FaultV else OfI64(r.value))
      case (RealV(p), RealV(q)) =>
        Some(if name == "add" then RealV(p + q) else if name == "sub" then RealV(p - q)
             else if name == "mul" then RealV(p * q) else if q == 0.0 then FaultV else OkV(RealV(p / q)))
      case _ => None
    else if IsComparison(name) then
      match (a, b)
      case (I32V(m), I32V(n)) => Some(BoolV(CompareInts(name, m, n)))
      case (I64V(m), I64V(n)) => Some(BoolV(CompareInts(name, m, n)))
      case (RealV(p), RealV(q)) => Some(BoolV(CompareReals(name, p, q)))
      case _ => None
    else
      match (a, b)
      case (BoolV(p), BoolV(q)) =>
        Some(BoolV(if name == "and" then p && q else if name == "or" then p || q else p != q))
      case _ => None
  }

  predicate IsPairName(name: string)
  {
    IsArithmetic(name) || IsComparison(name) || name in ["and", "or", "xor"]
  }

  predicate IsSingleName(name: string) { name in ["neg", "abs", "sqrt", "exp", "sin", "cos", "not"] }

  function Single(world: World, name: string, v: Value): Option<Value>
  {
    match v
    case RealV(r) =>
      if name == "neg" then Some(RealV(-r))
      else if name == "abs" then Some(RealV(if r < 0.0 then -r else r))
      else if name == "sqrt" then Some(if r < 0.0 then FaultV else OkV(RealV(world.sqrt(r))))
      else if name == "exp" then Some(RealV(world.exp(r)))
      else if name == "sin" then Some(RealV(world.sin(r)))
      else if name == "cos" then Some(RealV(world.cos(r)))
      else None
    case I32V(n) =>
      if name == "neg" then Some(OfI32(-n)) else if name == "abs" then Some(OfI32(if n < 0 then -n else n)) else None
    case I64V(n) =>
      if name == "neg" then Some(OfI64(-n)) else if name == "abs" then Some(OfI64(if n < 0 then -n else n)) else None
    case BoolV(b) => if name == "not" then Some(BoolV(!b)) else None
    case _ => None
  }

  predicate IsModelled(name: string)
  {
    IsPairName(name) || IsSingleName(name) || name in ["from_int", "from_int_f32", "select"]
  }

  /** Values of one type, as `select` takes them (src/stdlib/intrinsic.rs:7). */
  predicate Alike(v: Value, w: Value)
  {
    match v
    case TupleV(vs) => w.TupleV? && |vs| == |w.items| && forall i :: 0 <= i < |vs| ==> Alike(vs[i], w.items[i])
    case OkV(_) => w.OkV? || w.FaultV?
    case FaultV => w.OkV? || w.FaultV?
    case I32V(_) => w.I32V?
    case I64V(_) => w.I64V?
    case RealV(_) => w.RealV?
    case BoolV(_) => w.BoolV?
  }

  function BuiltinPlain(world: World, name: string, v: Value): Option<Value>
  {
    if IsPairName(name) then
      if v.TupleV? && |v.items| == 2 then Pair(world, name, v.items[0], v.items[1]) else None
    else if IsSingleName(name) then Single(world, name, v)
    else if name == "from_int" || name == "from_int_f32" then
      if v.I64V? then Some(RealV(v.n as real)) else None
    else if name == "select" then
      if v.TupleV? && |v.items| == 3 && v.items[0].BoolV? && Alike(v.items[1], v.items[2]) then
        Some(if v.items[0].flag then v.items[1] else v.items[2])
      else None
    else world.other(name, v)
  }

  function Builtin(world: World, name: string, v: Value): Option<Value>
  {
    if !Faulty(v) then BuiltinPlain(world, name, v)
    else if Unwrap(v).None? then Some(FaultV)
    else Lifted(BuiltinPlain(world, name, Unwrap(v).value))
  }

  // ---- Bindings ----

  /** An item of a tuple that might have been a fault. */
  function Projected(v: Value): Value { if v.OkV? || v.FaultV? then v else OkV(v) }

  /** Destructuring a fault, or a tuple that might have been one, gives items that might be faults. */
  function BindTarget(t: BindingTarget, v: Value, env: Env): Option<Env>
    decreases t, 0
  {
    match t
    case Drop => Some(env)
    case Bound(x) => if x in env then None else Some(env[x := v])
    case Both(items) =>
      match v
      case TupleV(vs) => if |vs| == |items| then BindTargets(items, vs, env) else None
      case OkV(w) =>
        if w.TupleV? && |w.items| == |items| then
          BindTargets(items, seq(|items|, i requires 0 <= i < |items| => Projected(w.items[i])), env)
        else None
      case FaultV => BindTargets(items, seq(|items|, _ => FaultV), env)
      case _ => None
  }

  function BindTargets(ts: seq<BindingTarget>, vs: seq<Value>, env: Env): Option<Env>
    requires |ts| == |vs|
    decreases ts, 0
  {
    if ts == [] then Some(env) else
      var next :- BindTarget(ts[0], vs[0], env);
      BindTargets(ts[1..], vs[1..], next)
  }

  function BindInputs(ports: seq<TypedPort>, v: Value): Option<Env>
  {
    if ports == [] then Some(map[])
    else if |ports| == 1 then Some(map[ports[0].name := v])
    else if v.TupleV? && |v.items| == |ports| then
      BindTargets(seq(|ports|, i requires 0 <= i < |ports| => Bound(ports[i].name)), v.items, map[])
    else None
  }

  function Outputs(ports: seq<TypedPort>, env: Env): Option<seq<Value>>
  {
    if ports == [] then Some([])
    else if ports[0].name !in env then None
    else
      var rest :- Outputs(ports[1..], env);
      Some([env[ports[0].name]] + rest)
  }

  function Returned(ports: seq<TypedPort>, env: Env): Option<Value>
  {
    var vs :- Outputs(ports, env);
    Some(if |vs| == 1 then vs[0] else TupleV(vs))
  }

  // ---- Graphs ----

  function RunEndpoint(world: World, names: SymbolNames, e: TypedEndpoint, env: Env, fuel: nat): Option<Value>
    decreases fuel, 1, e, 0
  {
    match e.kind
    case Variable(x) => if x in env then Some(env[x]) else None
    case Int(n) => Some(I64V(n))
    case Real(r) => Some(RealV(r))
    case RealF32(r) => Some(RealV(r))
    case Bool(b) => Some(BoolV(b))
    case Tuple(items) =>
      var vs :- RunItems(world, names, items, env, fuel);
      Some(TupleV(vs))
    case Eval(source, stages) =>
      var v :- RunEndpoint(world, names, source, env, fuel);
      var r :- RunStages(world, names, stages, v, env, fuel);
      Some(r.0)
    case _ => None
  }

  function RunItems(world: World, names: SymbolNames, items: seq<TypedEndpoint>, env: Env, fuel: nat): Option<seq<Value>>
    decreases fuel, 1, items, 0
  {
    if items == [] then Some([]) else
      var v :- RunEndpoint(world, names, items[0], env, fuel);
      var vs :- RunItems(world, names, items[1..], env, fuel);
      Some([v] + vs)
  }

  function RunStages(world: World, names: SymbolNames, stages: seq<TypedStage>, v: Value, env: Env, fuel: nat)
    : Option<(Value, Env)>
    decreases fuel, 1, stages, 0
  {
    if stages == [] then Some((v, env)) else
      match stages[0].kind
      case Call(name, symbol) =>
        var next :- RunCall(world, names, name, symbol, v, fuel);
        RunStages(world, names, stages[1..], next, env, fuel)
      case Bind(target) =>
        var env' :- BindTarget(target, v, env);
        RunStages(world, names, stages[1..], v, env', fuel)
      case _ => None
  }

  function RunChains(world: World, names: SymbolNames, chains: seq<TypedChain>, env: Env, fuel: nat): Option<Env>
    decreases fuel, 2, |chains|, 0
  {
    if chains == [] then Some(env) else
      var v :- RunEndpoint(world, names, chains[0].source, env, fuel);
      var r :- RunStages(world, names, chains[0].stages, v, env, fuel);
      RunChains(world, names, chains[1..], r.1, fuel)
  }

  function RunCallable(world: World, names: SymbolNames, c: TypedCallable, v: Value, fuel: nat): Option<Value>
    decreases fuel, 3, 0, 0
  {
    var start :- BindInputs(c.inputs, v);
    var env :- RunChains(world, names, c.chains, start, fuel);
    Returned(c.outputs, env)
  }

  predicate TakesFaults(c: TypedCallable)
  {
    exists i :: 0 <= i < |c.inputs| && ContainsFaultable(c.inputs[i].ty)
  }

  /** A call with fewer than `fuel` calls nested in it; a node that declares no faults is lifted over them. */
  function RunCall(
    world: World, names: SymbolNames, name: string, symbol: Option<SymbolId>, v: Value, fuel: nat): Option<Value>
    decreases fuel, 0, 0, 0
  {
    var found := CallableOf(names, name, symbol);
    if found.None? then Builtin(world, BuiltinOf(names, name, symbol), v)
    else if fuel == 0 then None
    else if TakesFaults(found.value) || !Faulty(v) then RunCallable(world, names, found.value, v, fuel - 1)
    else if Unwrap(v).None? then Some(FaultV)
    else Lifted(RunCallable(world, names, found.value, Unwrap(v).value, fuel - 1))
  }
}
