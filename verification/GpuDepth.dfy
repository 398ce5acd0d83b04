/** Inlining without recursion: from some depth on, the bound on nested calls does not matter. */
module GpuDepth {
  import opened Ast
  import opened Typed
  import opened GraphRun
  import opened GpuLowering

  datatype CallSite = CallSite(name: string, symbol: Option<SymbolId>)

  // ---- The calls of a graph, as far as it can be lowered ----

  function EndpointCalls(e: TypedEndpoint): set<CallSite>
    decreases e, 0
  {
    match e.kind
    case Tuple(items) => ItemCalls(items)
    case Eval(source, stages) => EndpointCalls(source) + StageCalls(stages)
    case _ => {}
  }

  function ItemCalls(items: seq<TypedEndpoint>): set<CallSite>
    decreases items, 0
  {
    if items == [] then {} else EndpointCalls(items[0]) + ItemCalls(items[1..])
  }

  function StageCalls(stages: seq<TypedStage>): set<CallSite>
    decreases stages, 0
  {
    if stages == [] then {}
    else (if stages[0].kind.Call? then {CallSite(stages[0].kind.name, stages[0].kind.symbol)} else {}) + StageCalls(stages[1..])
  }

  function ChainCalls(chains: seq<TypedChain>): set<CallSite>
  {
    if chains == [] then {} else EndpointCalls(chains[0].source) + StageCalls(chains[0].stages) + ChainCalls(chains[1..])
  }

  /** Every callable that is called has a lower rank than `rank`. */
  ghost predicate Below(names: SymbolNames, rankOf: TypedCallable -> nat, calls: set<CallSite>, rank: nat)
  {
    forall s :: s in calls && CallableOf(names, s.name, s.symbol).Some? ==>
      rankOf(CallableOf(names, s.name, s.symbol).value) < rank
  }

  /** The call graph has no cycle: ranks go down along calls. */
  ghost predicate Acyclic(names: SymbolNames, rankOf: TypedCallable -> nat)
  {
    forall name, symbol :: CallableOf(names, name, symbol).Some? ==>
      var c := CallableOf(names, name, symbol).value;
      Below(names, rankOf, ChainCalls(c.chains), rankOf(c))
  }

  // ---- More depth changes nothing ----

  lemma {:induction false} EndpointSettles(
    names: SymbolNames, rankOf: TypedCallable -> nat, e: TypedEndpoint, env: ExprEnv, depth: nat, more: nat)
    requires Acyclic(names, rankOf) && Below(names, rankOf, EndpointCalls(e), depth) && depth <= more
    ensures LowerEndpoint(names, e, env, depth) == LowerEndpoint(names, e, env, more)
    decreases depth, 1, e, 0
  {
    hide Acyclic, LowerItems, LowerStages, ItemCalls, StageCalls;
    match e.kind
    case Tuple(items) => ItemsSettle(names, rankOf, items, env, depth, more);
    case Eval(source, stages) =>
      EndpointSettles(names, rankOf, source, env, depth, more);
      var v := LowerEndpoint(names, source, env, depth);
      if v.Some? { StagesSettle(names, rankOf, stages, v.value, env, depth, more); }
    case _ =>
  }

  lemma {:induction false} ItemsSettle(
    names: SymbolNames, rankOf: TypedCallable -> nat, items: seq<TypedEndpoint>, env: ExprEnv, depth: nat, more: nat)
    requires Acyclic(names, rankOf) && Below(names, rankOf, ItemCalls(items), depth) && depth <= more
    ensures LowerItems(names, items, env, depth) == LowerItems(names, items, env, more)
    decreases depth, 1, items, 0
  {
    hide Acyclic, LowerEndpoint, EndpointCalls;
    if items != [] {
      EndpointSettles(names, rankOf, items[0], env, depth, more);
      ItemsSettle(names, rankOf, items[1..], env, depth, more);
    }
  }

  lemma {:induction false} StagesSettle(
    names: SymbolNames, rankOf: TypedCallable -> nat, stages: seq<TypedStage>, v: GpuExpr, env: ExprEnv,
    depth: nat, more: nat)
    requires Acyclic(names, rankOf) && Below(names, rankOf, StageCalls(stages), depth) && depth <= more
    ensures LowerStages(names, stages, v, env, depth) == LowerStages(names, stages, v, env, more)
    decreases depth, 1, stages, 0
  {
    hide Acyclic, LowerCall, BindExpr;
    if stages != [] {
      match stages[0].kind
      case Call(name, symbol) =>
        assert CallSite(name, symbol) in StageCalls(stages);
        CallSettles(names, rankOf, name, symbol, v, depth, more);
        var next := LowerCall(names, name, symbol, v, depth);
        if next.Some? { StagesSettle(names, rankOf, stages[1..], next.value, env, depth, more); }
      case Bind(target) =>
        var next := BindExpr(target, v, env);
        if next.Some? { StagesSettle(names, rankOf, stages[1..], v, next.value, depth, more); }
      case _ =>
    }
  }

  lemma {:induction false} ChainsSettle(
    names: SymbolNames, rankOf: TypedCallable -> nat, chains: seq<TypedChain>, env: ExprEnv, depth: nat, more: nat)
    requires Acyclic(names, rankOf) && Below(names, rankOf, ChainCalls(chains), depth) && depth <= more
    ensures LowerChains(names, chains, env, depth) == LowerChains(names, chains, env, more)
    decreases depth, 2, |chains|, 0
  {
    hide Acyclic, LowerEndpoint, LowerStages, EndpointCalls, StageCalls;
    if chains != [] {
      EndpointSettles(names, rankOf, chains[0].source, env, depth, more);
      var v := LowerEndpoint(names, chains[0].source, env, depth);
      if v.Some? {
        StagesSettle(names, rankOf, chains[0].stages, v.value, env, depth, more);
        var r := LowerStages(names, chains[0].stages, v.value, env, depth);
        if r.Some? { ChainsSettle(names, rankOf, chains[1..], r.value.1, depth, more); }
      }
    }
  }

  lemma {:induction false} CallSettles(
    names: SymbolNames, rankOf: TypedCallable -> nat, name: string, symbol: Option<SymbolId>, v: GpuExpr,
    depth: nat, more: nat)
    requires Acyclic(names, rankOf) && Below(names, rankOf, {CallSite(name, symbol)}, depth) && depth <= more
    ensures LowerCall(names, name, symbol, v, depth) == LowerCall(names, name, symbol, v, more)
    decreases depth, 0, 0, 0
  {
    hide LowerChains, ChainCalls;
    var found := CallableOf(names, name, symbol);
    assert CallSite(name, symbol) in {CallSite(name, symbol)};
    if found.Some? && |found.value.inputs| == 1 {
      assert Below(names, rankOf, ChainCalls(found.value.chains), depth - 1);
      ChainsSettle(names, rankOf, found.value.chains, map[found.value.inputs[0].name := v], depth - 1, more - 1);
    }
  }

  /** Without recursion, a kernel is lowered the same at every depth that is not below the ranks of its callees. */
  lemma DepthDoesNotMatter(
    names: SymbolNames, rankOf: TypedCallable -> nat, c: TypedCallable, depth: nat, more: nat)
    requires Acyclic(names, rankOf) && Below(names, rankOf, ChainCalls(c.chains), depth) && depth <= more
    ensures LowerCallable(names, c, depth) == LowerCallable(names, c, more)
  {
    if KindOf(c).Some? { ChainsSettle(names, rankOf, c.chains, map[c.inputs[0].name := XVar("x")], depth, more); }
  }
}
