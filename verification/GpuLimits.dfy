/** Which callables become kernels: what src/codegen/gpu.rs:261-439 takes, and what it refuses. */
module GpuLimits {
  import opened Ast
  import opened Types
  import opened Typed
  import opened GraphRun
  import opened GpuLowering

  // ---- Shapes ----

  /** What lowering asks of an expression: whether it is an integer literal, or a tuple, or anything else. */
  datatype Shape = Literal | Tupled(items: seq<Shape>) | Plain

  type Shapes = map<string, Shape>

  function ShapeOf(x: GpuExpr): Shape
    decreases x, 0
  {
    match x
    case XInt(_) => Literal
    case XTuple(items) => Tupled(AllShapes(items))
    case _ => Plain
  }

  function AllShapes(xs: seq<GpuExpr>): (r: seq<Shape>)
    ensures |r| == |xs| && forall i :: 0 <= i < |xs| ==> r[i] == ShapeOf(xs[i])
    decreases xs, 0
  {
    if xs == [] then [] else [ShapeOf(xs[0])] + AllShapes(xs[1..])
  }

  function ShapesIn(env: ExprEnv): Shapes { map x | x in env :: ShapeOf(env[x]) }

  // ---- Rules ----

  predicate IsBinaryName(name: string)
  {
    name in ["add", "sub", "mul", "div", "eq", "lt", "gt", "le", "ge", "and", "or", "xor"]
  }

  predicate IsUnaryName(name: string) { name in ["neg", "abs", "sqrt", "exp", "sin", "cos", "not"] }

  /** The built-in nodes that are lowered: on pairs, on anything, on integer literals, and the choice on triples. */
  predicate BuiltinTakes(name: string, s: Shape, u: Shape)
  {
    || (IsBinaryName(name) && s.Tupled? && |s.items| == 2 && u == Plain)
    || (IsUnaryName(name) && u == Plain)
    || (name in ["from_int", "from_int_f32"] && s == Literal && u == Literal)
    || (name == "select" && s.Tupled? && |s.items| == 3 && u == Plain)
  }

  /** The target takes the expression apart; a name may be bound again. */
  ghost predicate Takes(t: BindingTarget, s: Shape, env: Shapes, next: Shapes)
    decreases t, 0
  {
    match t
    case Drop => next == env
    case Bound(x) => next == env[x := s]
    case Both(items) => s.Tupled? && |s.items| == |items| && AllTake(items, s.items, env, next)
  }

  ghost predicate AllTake(ts: seq<BindingTarget>, ss: seq<Shape>, env: Shapes, next: Shapes)
    requires |ts| == |ss|
    decreases ts, 0
  {
    if ts == [] then next == env
    else exists mid :: Takes(ts[0], ss[0], env, mid) && AllTake(ts[1..], ss[1..], mid, next)
  }

  /** Numbers, truth values, bound names, and tuples and evaluations of such. */
  ghost predicate Lowers(names: SymbolNames, e: TypedEndpoint, env: Shapes, s: Shape, fuel: nat)
    decreases fuel, 1, e, 0
  {
    match e.kind
    case Variable(x) => x in env && env[x] == s
    case Int(_) => s == Literal
    case Real(_) => s == Plain
    case RealF32(_) => s == Plain
    case Bool(_) => s == Plain
    case Tuple(items) => s.Tupled? && AllLower(names, items, env, s.items, fuel)
    case Eval(source, stages) =>
      exists u, next :: Lowers(names, source, env, u, fuel) && Flows(names, stages, u, env, s, next, fuel)
    case _ => false
  }

  ghost predicate AllLower(names: SymbolNames, items: seq<TypedEndpoint>, env: Shapes, ss: seq<Shape>, fuel: nat)
    decreases fuel, 1, items, 0
  {
    |ss| == |items| && forall i :: 0 <= i < |items| ==> Lowers(names, items[i], env, ss[i], fuel)
  }

  /** Stages are calls and bindings. */
  ghost predicate Flows(names: SymbolNames, stages: seq<TypedStage>, s: Shape, env: Shapes, u: Shape, next: Shapes,
    fuel: nat)
    decreases fuel, 1, stages, 0
  {
    if stages == [] then u == s && next == env
    else
      match stages[0].kind
      case Call(name, symbol) =>
        exists mid :: Inlines(names, name, symbol, s, mid, fuel) && Flows(names, stages[1..], mid, env, u, next, fuel)
      case Bind(target) =>
        exists mid :: Takes(target, s, env, mid) && Flows(names, stages[1..], s, mid, u, next, fuel)
      case _ => false
  }

  ghost predicate AllFlow(names: SymbolNames, chains: seq<TypedChain>, env: Shapes, next: Shapes, fuel: nat)
    decreases fuel, 2, |chains|, 0
  {
    if chains == [] then next == env
    else
      exists s, u, mid ::
        && Lowers(names, chains[0].source, env, s, fuel) && Flows(names, chains[0].stages, s, env, u, mid, fuel)
        && AllFlow(names, chains[1..], mid, next, fuel)
  }

  /** A callable with one input is inlined, `fuel` deep, for its first output; other names are built-in nodes. */
  ghost predicate Inlines(names: SymbolNames, name: string, symbol: Option<SymbolId>, s: Shape, u: Shape, fuel: nat)
    decreases fuel, 0, 0, 0
  {
    var found := CallableOf(names, name, symbol);
    if found.Some? && |found.value.inputs| == 1 then
      var c := found.value;
      && c.outputs != [] && fuel > 0
      && exists next: Shapes ::
           && AllFlow(names, c.chains, map[c.inputs[0].name := s], next, fuel - 1)
           && c.outputs[0].name in next && next[c.outputs[0].name] == u
    else BuiltinTakes(BuiltinOf(names, name, symbol), s, u)
  }

  // ---- Lowering keeps to the rules ----

  lemma NamedOperators(name: string)
    ensures BinaryNamed(name).Some? <==> IsBinaryName(name)
    ensures UnaryNamed(name).Some? <==> IsUnaryName(name)
  {}

  lemma OtherNames(name: string)
    requires name == "from_int" || name == "from_int_f32" || name == "select"
    ensures !IsBinaryName(name) && !IsUnaryName(name)
  {}

  lemma NoBinaryIsUnary(name: string)
    ensures !IsBinaryName(name) || !IsUnaryName(name)
  {}

  lemma BuiltinShaped(name: string, x: GpuExpr)
    ensures
      var y := LowerBuiltin(name, x);
      forall u :: BuiltinTakes(name, ShapeOf(x), u) <==> y.Some? && ShapeOf(y.value) == u
  {
    NamedOperators(name);
    NoBinaryIsUnary(name);
    if name == "from_int" || name == "from_int_f32" || name == "select" { OtherNames(name); }
    hide BinaryNamed, UnaryNamed, IsBinaryName, IsUnaryName;
  }

  lemma BoundShape(env: ExprEnv, x: string, e: GpuExpr)
    ensures ShapesIn(env[x := e]) == ShapesIn(env)[x := ShapeOf(e)]
  {}

  lemma {:induction false} TargetShaped(t: BindingTarget, x: GpuExpr, env: ExprEnv)
    ensures
      var r := BindExpr(t, x, env);
      forall next :: Takes(t, ShapeOf(x), ShapesIn(env), next) <==> r.Some? && ShapesIn(r.value) == next
    decreases t, 0
  {
    hide ShapesIn, BindExprs, AllTake;
    match t
    case Drop =>
    case Bound(n) => BoundShape(env, n, x);
    case Both(items) =>
      if x.XTuple? && |x.items| == |items| { TargetsShaped(items, x.items, env); }
  }

  lemma {:induction false} TargetsShaped(ts: seq<BindingTarget>, xs: seq<GpuExpr>, env: ExprEnv)
    requires |ts| == |xs|
    ensures
      var r := BindExprs(ts, xs, env);
      forall next :: AllTake(ts, AllShapes(xs), ShapesIn(env), next) <==> r.Some? && ShapesIn(r.value) == next
    decreases ts, 0
  {
    hide ShapesIn, BindExpr, Takes, ShapeOf;
    if ts != [] {
      assert AllShapes(xs)[1..] == AllShapes(xs[1..]);
      TargetShaped(ts[0], xs[0], env);
      var mid := BindExpr(ts[0], xs[0], env);
      if mid.Some? {
        TargetsShaped(ts[1..], xs[1..], mid.value);
        assert Takes(ts[0], AllShapes(xs)[0], ShapesIn(env), ShapesIn(mid.value));
      }
    }
  }

  lemma {:induction false} EndpointShaped(names: SymbolNames, e: TypedEndpoint, env: ExprEnv, fuel: nat)
    ensures
      var r := LowerEndpoint(names, e, env, fuel);
      forall s :: Lowers(names, e, ShapesIn(env), s, fuel) <==> r.Some? && ShapeOf(r.value) == s
    decreases fuel, 1, e, 0
  {
    hide LowerItems, LowerStages, AllLower, Flows;
    match e.kind
    case Tuple(items) => ItemsShaped(names, items, env, fuel);
    case Eval(source, stages) =>
      hide ShapeOf, ShapesIn;
      EndpointShaped(names, source, env, fuel);
      var x := LowerEndpoint(names, source, env, fuel);
      if x.Some? {
        StagesShaped(names, stages, x.value, env, fuel);
        assert Lowers(names, source, ShapesIn(env), ShapeOf(x.value), fuel);
        var r := LowerStages(names, stages, x.value, env, fuel);
        if r.Some? {
          assert Flows(names, stages, ShapeOf(x.value), ShapesIn(env), ShapeOf(r.value.0), ShapesIn(r.value.1), fuel);
        }
      }
    case _ =>
  }

  lemma {:induction false} ItemsShaped(names: SymbolNames, items: seq<TypedEndpoint>, env: ExprEnv, fuel: nat)
    ensures
      var r := LowerItems(names, items, env, fuel);
      forall ss :: AllLower(names, items, ShapesIn(env), ss, fuel) <==> r.Some? && AllShapes(r.value) == ss
    decreases fuel, 1, items, 0
  {
    hide Lowers, LowerEndpoint, ShapeOf, ShapesIn;
    if items != [] {
      EndpointShaped(names, items[0], env, fuel);
      ItemsShaped(names, items[1..], env, fuel);
      hide AllLower;
      forall ss
        ensures AllLower(names, items, ShapesIn(env), ss, fuel)
                <==> && ss != [] && Lowers(names, items[0], ShapesIn(env), ss[0], fuel)
                     && AllLower(names, items[1..], ShapesIn(env), ss[1..], fuel)
      {
        ItemsStep(names, items, ShapesIn(env), ss, fuel);
      }
      var r := LowerItems(names, items, env, fuel);
      if r.Some? { assert r.value[1..] == LowerItems(names, items[1..], env, fuel).value; }
      forall ss | r.Some? && AllShapes(r.value) == ss
        ensures ss[1..] == AllShapes(r.value[1..])
      {}
    }
  }

  lemma ItemsStep(names: SymbolNames, items: seq<TypedEndpoint>, env: Shapes, ss: seq<Shape>, fuel: nat)
    requires items != []
    ensures
      AllLower(names, items, env, ss, fuel)
      <==> ss != [] && Lowers(names, items[0], env, ss[0], fuel) && AllLower(names, items[1..], env, ss[1..], fuel)
  {
    hide Lowers;
    if ss != [] && Lowers(names, items[0], env, ss[0], fuel) && AllLower(names, items[1..], env, ss[1..], fuel) {
      forall i | 0 <= i < |items|
        ensures Lowers(names, items[i], env, ss[i], fuel)
      {
        if i > 0 { assert items[i] == items[1..][i - 1] && ss[i] == ss[1..][i - 1]; }
      }
    }
    if AllLower(names, items, env, ss, fuel) {
      forall i | 0 <= i < |items| - 1
        ensures Lowers(names, items[1..][i], env, ss[1..][i], fuel)
      {
        assert items[1..][i] == items[i + 1] && ss[1..][i] == ss[i + 1];
      }
    }
  }

  lemma {:induction false} StagesShaped(names: SymbolNames, stages: seq<TypedStage>, x: GpuExpr, env: ExprEnv, fuel: nat)
    ensures
      var r := LowerStages(names, stages, x, env, fuel);
      forall u, next :: Flows(names, stages, ShapeOf(x), ShapesIn(env), u, next, fuel)
                        <==> r.Some? && ShapeOf(r.value.0) == u && ShapesIn(r.value.1) == next
    decreases fuel, 1, stages, 0
  {
    hide ShapeOf, ShapesIn, Inlines, LowerCall, Takes, BindExpr;
    if stages != [] {
      match stages[0].kind
      case Call(name, symbol) =>
        CallShaped(names, name, symbol, x, fuel);
        var y := LowerCall(names, name, symbol, x, fuel);
        if y.Some? {
          StagesShaped(names, stages[1..], y.value, env, fuel);
          assert Inlines(names, name, symbol, ShapeOf(x), ShapeOf(y.value), fuel);
        }
      case Bind(target) =>
        TargetShaped(target, x, env);
        var mid := BindExpr(target, x, env);
        if mid.Some? {
          StagesShaped(names, stages[1..], x, mid.value, fuel);
          assert Takes(target, ShapeOf(x), ShapesIn(env), ShapesIn(mid.value));
        }
      case _ =>
    }
  }

  lemma {:induction false} ChainsShaped(names: SymbolNames, chains: seq<TypedChain>, env: ExprEnv, fuel: nat)
    ensures
      var r := LowerChains(names, chains, env, fuel);
      forall next :: AllFlow(names, chains, ShapesIn(env), next, fuel) <==> r.Some? && ShapesIn(r.value) == next
    decreases fuel, 2, |chains|, 0
  {
    hide ShapeOf, ShapesIn, Lowers, LowerEndpoint, Flows, LowerStages;
    if chains != [] {
      EndpointShaped(names, chains[0].source, env, fuel);
      var x := LowerEndpoint(names, chains[0].source, env, fuel);
      if x.Some? {
        StagesShaped(names, chains[0].stages, x.value, env, fuel);
        var r := LowerStages(names, chains[0].stages, x.value, env, fuel);
        if r.Some? {
          ChainsShaped(names, chains[1..], r.value.1, fuel);
          assert Lowers(names, chains[0].source, ShapesIn(env), ShapeOf(x.value), fuel);
          assert Flows(names, chains[0].stages, ShapeOf(x.value), ShapesIn(env), ShapeOf(r.value.0), ShapesIn(r.value.1), fuel);
        }
      }
    }
  }

  lemma {:induction false} CallShaped(names: SymbolNames, name: string, symbol: Option<SymbolId>, x: GpuExpr, fuel: nat)
    ensures
      var r := LowerCall(names, name, symbol, x, fuel);
      forall u :: Inlines(names, name, symbol, ShapeOf(x), u, fuel) <==> r.Some? && ShapeOf(r.value) == u
    decreases fuel, 0, 0, 0
  {
    hide ShapeOf, BuiltinTakes, LowerBuiltin, AllFlow, LowerChains;
    BuiltinShaped(BuiltinOf(names, name, symbol), x);
    var found := CallableOf(names, name, symbol);
    if found.Some? && |found.value.inputs| == 1 && fuel > 0 {
      var c := found.value;
      var start: ExprEnv := map[c.inputs[0].name := x];
      assert ShapesIn(start) == map[c.inputs[0].name := ShapeOf(x)];
      ChainsShaped(names, c.chains, start, fuel - 1);
      var r := LowerChains(names, c.chains, start, fuel - 1);
      if r.Some? {
        assert AllFlow(names, c.chains, map[c.inputs[0].name := ShapeOf(x)], ShapesIn(r.value), fuel - 1);
        if c.outputs != [] && c.outputs[0].name in r.value {
          var next := ShapesIn(r.value);
          assert c.outputs[0].name in next && next[c.outputs[0].name] == ShapeOf(r.value[c.outputs[0].name]);
          assert Inlines(names, name, symbol, ShapeOf(x), ShapeOf(r.value[c.outputs[0].name]), fuel);
        }
      }
    }
  }

  /** The output is bound when the chains have run, from the input alone. */
  ghost predicate IsKernel(names: SymbolNames, c: TypedCallable, fuel: nat)
    requires |c.inputs| == |c.outputs| == 1
  {
    exists next: Shapes ::
      AllFlow(names, c.chains, map[c.inputs[0].name := Plain], next, fuel) && c.outputs[0].name in next
  }

  /**
   * A callable becomes a kernel just when it is pure, takes and returns one i32, f32 or f64, and keeps to the rules,
   * with all that it calls.
   */
  lemma LoweredIff(names: SymbolNames, c: TypedCallable, fuel: nat)
    ensures
      LowerCallable(names, c, fuel).Some?
      <==> && c.pure && |c.inputs| == |c.outputs| == 1
           && c.inputs[0].ty == c.outputs[0].ty && c.inputs[0].ty in [I32, F32, F64]
           && IsKernel(names, c, fuel)
  {
    hide LowerChains, AllFlow;
    if |c.inputs| == |c.outputs| == 1 {
      var start: ExprEnv := map[c.inputs[0].name := XVar("x")];
      assert ShapesIn(start) == map[c.inputs[0].name := Plain];
      ChainsShaped(names, c.chains, start, fuel);
      var r := LowerChains(names, c.chains, start, fuel);
      if r.Some? { assert AllFlow(names, c.chains, ShapesIn(start), ShapesIn(r.value), fuel); }
    }
  }
}
