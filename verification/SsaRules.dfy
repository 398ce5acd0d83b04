/** Which graphs instructions are written for, and with what types, stated by rules that know of no instruction. */
module SsaRules {
  import opened Ast
  import opened Types
  import opened Typed
  import opened SsaEmission

  type TypeEnv = map<string, Ty>

  function TypesIn(env: TextEnv): TypeEnv { map x | x in env :: env[x].ty }

  // ---- The rules ----

  /** The target takes a type apart; no name is bound again. */
  ghost predicate Takes(t: BindingTarget, ty: Ty, env: TypeEnv, next: TypeEnv)
    decreases t, 0
  {
    match t
    case Drop => next == env
    case Bound(x) => x !in env && next == env[x := ty]
    case Both(items) => ty.Tuple? && |ty.items| == |items| && AllTake(items, ty.items, env, next)
  }

  ghost predicate AllTake(ts: seq<BindingTarget>, tys: seq<Ty>, env: TypeEnv, next: TypeEnv)
    requires |ts| == |tys|
    decreases ts, 0
  {
    if ts == [] then next == env
    else exists mid :: Takes(ts[0], tys[0], env, mid) && AllTake(ts[1..], tys[1..], mid, next)
  }

  /** Before a call, a type with an empty sequence needs one from the called node. */
  predicate IsAsked(cg: Codegen, source: TypedEndpoint, stages: seq<TypedStage>)
  {
    stages == [] || !stages[0].kind.Call? || !HasEmptySeq(source.ty) ||
    cg.inputType(stages[0].kind.name, source.ty).Some?
  }

  ghost predicate Gives(cg: Codegen, e: TypedEndpoint, env: TypeEnv, t: Ty)
    decreases e, 0
  {
    match e.kind
    case Variable(x) => x in env && env[x] == t
    case NodeRef(_) => false
    case Struct(_, _) => false
    case Tuple(items) => t == e.ty && AreGiven(cg, items, env)
    case Eval(source, stages) =>
      IsAsked(cg, source, stages) && exists u :: Gives(cg, source, env, u) && Flows(cg, stages, u, env, t)
    case _ => t == e.ty
  }

  ghost predicate AreGiven(cg: Codegen, items: seq<TypedEndpoint>, env: TypeEnv)
    decreases items, 1
  {
    exists ts :: AllGive(cg, items, env, ts)
  }

  ghost predicate AllGive(cg: Codegen, items: seq<TypedEndpoint>, env: TypeEnv, ts: seq<Ty>)
    decreases items, 0
  {
    |ts| == |items| && forall i :: 0 <= i < |items| ==> Gives(cg, items[i], env, ts[i])
  }

  /** Additions, minima and maxima return their item; any other node what it says. */
  predicate Folds(cg: Codegen, op: string, t: Ty, identity: Ty, u: Ty)
  {
    && t == Ty.Seq(identity)
    && if cg.canonical(op) == "add" || cg.canonical(op) == "min" || cg.canonical(op) == "max" then u == identity
       else cg.outputType(op, identity) == Some(u)
  }

  ghost predicate FoldsFrom(cg: Codegen, op: string, identity: TypedEndpoint, env: TypeEnv, t: Ty, u: Ty)
    decreases identity, 1
  {
    exists i :: Gives(cg, identity, env, i) && Folds(cg, op, t, i, u)
  }

  /** A stage that hands a value on. */
  ghost predicate Passes(cg: Codegen, s: TypedStage, env: TypeEnv, t: Ty, u: Ty)
    decreases s, 0
  {
    match s.kind
    case Call(name, _) => cg.outputType(name, t) == Some(u)
    case Map(name) =>
      || (t.Seq? && u.Seq? && cg.outputType(name, t.item) == Some(u.item))
      || (t.Stream? && u.Stream? && cg.outputType(name, t.item) == Some(u.item))
    case Filter(name) => t.Seq? && cg.outputType(name, t.item) == Some(Ty.Bool) && u == t
    case Repeat(node, count) => cg.outputType(node, t) == Some(u) && exists n :: Gives(cg, count, env, n)
    case Reduce(op, identity) => FoldsFrom(cg, op, identity, env, t, u)
    case Scan(op, identity) => u.Seq? && FoldsFrom(cg, op, identity, env, t, u.item)
    case Match(_) => u == s.output
    case _ => false
  }

  ghost predicate Flows(cg: Codegen, stages: seq<TypedStage>, t: Ty, env: TypeEnv, u: Ty)
    decreases stages, 0
  {
    if stages == [] then u == t
    else exists mid :: Passes(cg, stages[0], env, t, mid) && Flows(cg, stages[1..], mid, env, u)
  }

  /** The stages of a chain: bindings hand on what they got. */
  ghost predicate Binds(cg: Codegen, stages: seq<TypedStage>, t: Ty, env: TypeEnv, next: TypeEnv)
    decreases stages, 0
  {
    if stages == [] then next == env
    else
      match stages[0].kind
      case Bind(target) => exists mid :: Takes(target, t, env, mid) && Binds(cg, stages[1..], t, mid, next)
      case FaultMap(node, ok, fault) =>
        && t.Seq? && cg.outputType(node, t.item).Some? && cg.outputType(node, t.item).value.Faultable?
        && var item := cg.outputType(node, t.item).value.item;
           Binds(cg, stages[1..], t, env[ok := Ty.Seq(item)][fault := Ty.Seq(Fault)], next)
      case _ => exists u :: Passes(cg, stages[0], env, t, u) && Binds(cg, stages[1..], u, env, next)
  }

  ghost predicate AllBind(cg: Codegen, chains: seq<TypedChain>, env: TypeEnv, next: TypeEnv)
    decreases |chains|
  {
    if chains == [] then next == env
    else
      && IsAsked(cg, chains[0].source, chains[0].stages)
      && exists t, mid ::
           && Gives(cg, chains[0].source, env, t) && Binds(cg, chains[0].stages, t, env, mid)
           && AllBind(cg, chains[1..], mid, next)
  }

  /** Port `i` has the name, and the item at its place the type; of equal names the last one counts. */
  predicate InputAt(ports: seq<TypedPort>, items: seq<Ty>, x: string, t: Ty, i: nat)
  {
    && i < |ports| && i < |items| && ports[i].name == x && items[i] == t
    && forall j :: i < j < |ports| && j < |items| ==> ports[j].name != x
  }

  ghost predicate IsInput(ports: seq<TypedPort>, items: seq<Ty>, x: string, t: Ty)
  {
    exists i: nat :: InputAt(ports, items, x, t, i)
  }

  predicate MapsTo(env: TypeEnv, x: string, t: Ty) { x in env && env[x] == t }

  /** One input takes the whole argument, several take its items. */
  ghost predicate Starts(ports: seq<TypedPort>, input: Ty, env: TypeEnv)
  {
    if ports == [] then env == map[]
    else if |ports| == 1 then env == map[ports[0].name := input]
    else input.Tuple? && forall x, t :: MapsTo(env, x, t) <==> IsInput(ports, input.items, x, t)
  }

  /** As many outputs as the declared type has items are bound; one output is returned as it is. */
  predicate Returns(ports: seq<TypedPort>, env: TypeEnv, output: Ty, u: Ty)
  {
    if ports == [] then u == Ty.Unit
    else if |ports| == 1 then ports[0].name in env && u == env[ports[0].name]
    else
      && output.Tuple? && u == output
      && forall i :: 0 <= i < |ports| && i < |output.items| ==> ports[i].name in env
  }

  // ---- Emission keeps to the rules ----

  lemma BoundType(env: TextEnv, x: string, v: TextValue)
    ensures TypesIn(env[x := v]) == TypesIn(env)[x := v.ty]
  {}

  lemma {:induction false} TargetTyped(st: State, t: BindingTarget, v: TextValue, env: TextEnv)
    ensures
      var r := EmitBind(st, t, v, env);
      forall next :: Takes(t, v.ty, TypesIn(env), next) <==> r.Some? && TypesIn(r.value.0) == next
    decreases t, 0
  {
    hide EmitBinds, AllTake;
    match t
    case Drop =>
    case Bound(x) => BoundType(env, x, v);
    case Both(items) =>
      if v.ty.Tuple? && |v.ty.items| == |items| {
        assert v.ty.items[0..] == v.ty.items;
        TargetsTyped(st, items, v, 0, env);
      }
  }

  lemma {:induction false} TargetsTyped(st: State, ts: seq<BindingTarget>, v: TextValue, index: nat, env: TextEnv)
    requires v.ty.Tuple? && index + |ts| == |v.ty.items|
    ensures
      var r := EmitBinds(st, ts, v, index, env);
      forall next :: AllTake(ts, v.ty.items[index..], TypesIn(env), next) <==> r.Some? && TypesIn(r.value.0) == next
    decreases ts, 0
  {
    hide TypesIn, EmitBind, Takes;
    var tys := v.ty.items[index..];
    if ts != [] {
      var field := ExtractField(st, v, index).value;
      var item := TextValue(field.0, v.ty.items[index]);
      assert tys[0] == item.ty && tys[1..] == v.ty.items[index + 1..];
      TargetTyped(field.1, ts[0], item, env);
      var mid := EmitBind(field.1, ts[0], item, env);
      if mid.Some? {
        TargetsTyped(mid.value.1, ts[1..], v, index + 1, mid.value.0);
        assert Takes(ts[0], tys[0], TypesIn(env), TypesIn(mid.value.0));
      }
    }
  }

  lemma {:induction false} EndpointTyped(cg: Codegen, st: State, e: TypedEndpoint, env: TextEnv)
    ensures
      var r := EmitEndpoint(cg, st, e, env);
      forall t :: Gives(cg, e, TypesIn(env), t) <==> r.Some? && r.value.0.ty == t
    decreases e, 0
  {
    hide EmitItems, EmitInline, AreGiven, Flows, InsertAll;
    match e.kind
    case Tuple(items) => ItemsTyped(cg, st, items, env);
    case Eval(source, stages) =>
      hide TypesIn;
      if HasContext(cg, source, stages) {
        EndpointTyped(cg, st, source, env);
        var x := EmitEndpoint(cg, st, source, env);
        if x.Some? {
          InlineTyped(cg, x.value.1, stages, x.value.0, env);
          assert Gives(cg, source, TypesIn(env), x.value.0.ty);
        }
      }
    case _ =>
  }

  lemma {:induction false} ItemsTyped(cg: Codegen, st: State, items: seq<TypedEndpoint>, env: TextEnv)
    ensures EmitItems(cg, st, items, env).Some? <==> AreGiven(cg, items, TypesIn(env))
    decreases items, 0
  {
    hide Gives, EmitEndpoint, TypesIn, AllGive;
    var types := TypesIn(env);
    if items == [] {
      assert AllGive(cg, items, types, []) by { NoItems(cg, types); }
    } else {
      EndpointTyped(cg, st, items[0], env);
      var first := EmitEndpoint(cg, st, items[0], env);
      if first.Some? {
        ItemsTyped(cg, first.value.1, items[1..], env);
        if ts :| AllGive(cg, items[1..], types, ts) {
          ItemsStep(cg, items, types, [first.value.0.ty] + ts);
        }
      }
      if ts :| AllGive(cg, items, types, ts) {
        SomeItems(cg, items, types, ts);
        ItemsStep(cg, items, types, ts);
      }
    }
  }

  lemma NoItems(cg: Codegen, env: TypeEnv)
    ensures AllGive(cg, [], env, [])
  {}

  lemma SomeItems(cg: Codegen, items: seq<TypedEndpoint>, env: TypeEnv, ts: seq<Ty>)
    requires AllGive(cg, items, env, ts)
    ensures |ts| == |items|
  {}

  lemma ItemsStep(cg: Codegen, items: seq<TypedEndpoint>, env: TypeEnv, ts: seq<Ty>)
    requires items != [] && ts != []
    ensures
      AllGive(cg, items, env, ts) <==> Gives(cg, items[0], env, ts[0]) && AllGive(cg, items[1..], env, ts[1..])
  {
    hide Gives;
    if Gives(cg, items[0], env, ts[0]) && AllGive(cg, items[1..], env, ts[1..]) {
      forall i | 0 <= i < |items|
        ensures Gives(cg, items[i], env, ts[i])
      {
        if i > 0 { assert items[i] == items[1..][i - 1] && ts[i] == ts[1..][i - 1]; }
      }
    }
    if AllGive(cg, items, env, ts) {
      forall i | 0 <= i < |items| - 1
        ensures Gives(cg, items[1..][i], env, ts[1..][i])
      {
        assert items[1..][i] == items[i + 1] && ts[1..][i] == ts[i + 1];
      }
    }
  }

  lemma CallTyped(cg: Codegen, st: State, name: string, v: TextValue)
    ensures
      var r := EmitCall(cg, st, name, v);
      forall u :: cg.outputType(name, v.ty) == Some(u) <==> r.Some? && r.value.0.ty == u
  {}

  lemma FoldTyped(cg: Codegen, op: string, t: Ty, identity: Ty)
    ensures forall u :: Folds(cg, op, t, identity, u) <==> ReduceType(cg, op, t, identity) == Some(u)
  {}

  lemma {:induction false} StageTyped(cg: Codegen, st: State, s: TypedStage, v: TextValue, env: TextEnv)
    ensures
      var r := EmitStage(cg, st, s, v, env);
      forall u :: Passes(cg, s, TypesIn(env), v.ty, u) <==> r.Some? && r.value.0.ty == u
    decreases s, 0
  {
    hide EmitEndpoint, Gives, EmitCall, ReduceType, FoldsFrom, TypesIn;
    match s.kind
    case Call(name, _) => CallTyped(cg, st, name, v);
    case Repeat(node, count) =>
      EndpointTyped(cg, st, count, env);
      var n := EmitEndpoint(cg, st, count, env);
      assert n.Some? ==> Gives(cg, count, TypesIn(env), n.value.0.ty);
    case Reduce(op, identity) => FoldStageTyped(cg, st, op, identity, v.ty, env);
    case Scan(op, identity) => FoldStageTyped(cg, st, op, identity, v.ty, env);
    case _ =>
  }

  lemma {:induction false} FoldStageTyped(cg: Codegen, st: State, op: string, identity: TypedEndpoint, t: Ty, env: TextEnv)
    ensures
      var i := EmitEndpoint(cg, st, identity, env);
      forall u :: FoldsFrom(cg, op, identity, TypesIn(env), t, u)
                  <==> i.Some? && ReduceType(cg, op, t, i.value.0.ty) == Some(u)
    decreases identity, 1
  {
    hide EmitEndpoint, Gives, ReduceType, Folds, TypesIn;
    EndpointTyped(cg, st, identity, env);
    var i := EmitEndpoint(cg, st, identity, env);
    if i.Some? {
      FoldTyped(cg, op, t, i.value.0.ty);
      assert Gives(cg, identity, TypesIn(env), i.value.0.ty);
    }
  }

  lemma {:induction false} InlineTyped(cg: Codegen, st: State, stages: seq<TypedStage>, v: TextValue, env: TextEnv)
    ensures
      var r := EmitInline(cg, st, stages, v, env);
      forall u :: Flows(cg, stages, v.ty, TypesIn(env), u) <==> r.Some? && r.value.0.ty == u
    decreases stages, 0
  {
    hide TypesIn, Passes, EmitStage;
    if stages != [] {
      StageTyped(cg, st, stages[0], v, env);
      var r := EmitStage(cg, st, stages[0], v, env);
      if r.Some? {
        InlineTyped(cg, r.value.1, stages[1..], r.value.0, env);
        assert Passes(cg, stages[0], TypesIn(env), v.ty, r.value.0.ty);
      }
    }
  }

  lemma FaultMapTyped(cg: Codegen, st: State, node: string, v: TextValue)
    ensures
      var ty := FaultMapType(cg, node, v.ty);
      var output := if v.ty.Seq? then cg.outputType(node, v.ty.item) else None;
      && (ty.Some? <==> output.Some? && output.value.Faultable?)
      && (ty.Some? ==>
            var parts := InvokeHelper(st, Helper("fault_map", node), ty.value, [v]);
            var oks := ExtractField(parts.1, parts.0, 0);
            && ty.value == Ty.Tuple([Ty.Seq(output.value.item), Ty.Seq(Fault)])
            && oks.Some? && ExtractField(oks.value.1, parts.0, 1).Some?)
  {}

  lemma {:induction false} StagesTyped(cg: Codegen, st: State, stages: seq<TypedStage>, v: TextValue, env: TextEnv)
    ensures
      var r := EmitStages(cg, st, stages, v, env);
      forall next :: Binds(cg, stages, v.ty, TypesIn(env), next) <==> r.Some? && TypesIn(r.value.0) == next
    decreases stages, 0
  {
    hide TypesIn, Passes, EmitStage, Takes, EmitBind, FaultMapType, InvokeHelper, ExtractField;
    if stages != [] {
      match stages[0].kind
      case Bind(target) =>
        TargetTyped(st, target, v, env);
        var mid := EmitBind(st, target, v, env);
        if mid.Some? {
          StagesTyped(cg, mid.value.1, stages[1..], v, mid.value.0);
          assert Takes(target, v.ty, TypesIn(env), TypesIn(mid.value.0));
        }
      case FaultMap(node, ok, fault) =>
        FaultMapTyped(cg, st, node, v);
        var ty := FaultMapType(cg, node, v.ty);
        if ty.Some? {
          var parts := InvokeHelper(st, Helper("fault_map", node), ty.value, [v]);
          var oks := ExtractField(parts.1, parts.0, 0).value;
          var faults := ExtractField(oks.1, parts.0, 1).value;
          var first := TextValue(oks.0, ty.value.items[0]);
          var second := TextValue(faults.0, ty.value.items[1]);
          BoundType(env, ok, first);
          BoundType(env[ok := first], fault, second);
          StagesTyped(cg, faults.1, stages[1..], v, env[ok := first][fault := second]);
        }
      case _ =>
        StageTyped(cg, st, stages[0], v, env);
        var r := EmitStage(cg, st, stages[0], v, env);
        if r.Some? {
          StagesTyped(cg, r.value.1, stages[1..], r.value.0, env);
          assert Passes(cg, stages[0], TypesIn(env), v.ty, r.value.0.ty);
        }
    }
  }

  lemma {:induction false} ChainsTyped(cg: Codegen, st: State, chains: seq<TypedChain>, env: TextEnv)
    ensures
      var r := EmitChains(cg, st, chains, env);
      forall next :: AllBind(cg, chains, TypesIn(env), next) <==> r.Some? && TypesIn(r.value.0) == next
    decreases |chains|
  {
    hide TypesIn, Gives, EmitEndpoint, Binds, EmitStages;
    if chains != [] && HasContext(cg, chains[0].source, chains[0].stages) {
      EndpointTyped(cg, st, chains[0].source, env);
      var x := EmitEndpoint(cg, st, chains[0].source, env);
      if x.Some? {
        StagesTyped(cg, x.value.1, chains[0].stages, x.value.0, env);
        var r := EmitStages(cg, x.value.1, chains[0].stages, x.value.0, env);
        if r.Some? {
          ChainsTyped(cg, r.value.1, chains[1..], r.value.0);
          assert Gives(cg, chains[0].source, TypesIn(env), x.value.0.ty)
            && Binds(cg, chains[0].stages, x.value.0.ty, TypesIn(env), TypesIn(r.value.0));
        }
      }
    }
  }

  // ---- Inputs and outputs ----

  /** An input from the given place on. */
  ghost predicate IsInputFrom(ports: seq<TypedPort>, items: seq<Ty>, x: string, t: Ty, index: nat)
  {
    exists i: nat :: i >= index && InputAt(ports, items, x, t, i)
  }

  predicate NamedFrom(ports: seq<TypedPort>, items: seq<Ty>, x: string, index: nat)
  {
    exists i :: index <= i < |ports| && i < |items| && ports[i].name == x
  }

  lemma {:induction false} InputsTyped(st: State, ports: seq<TypedPort>, ty: Ty, index: nat, env: TextEnv)
    requires ty.Tuple? && index <= |ports|
    ensures
      var types := TypesIn(EmitInputs(st, ports, ty, index, env).0);
      forall x, t :: MapsTo(types, x, t)
        <==> IsInputFrom(ports, ty.items, x, t, index) || (MapsTo(TypesIn(env), x, t) && !NamedFrom(ports, ty.items, x, index))
    decreases |ports| - index
  {
    if index < |ports| && index < |ty.items| {
      var next := Add(st, Extract(st.temp, ty, Input, index));
      var v := TextValue(Temp(st.temp), ty.items[index]);
      var env1 := env[ports[index].name := v];
      InputsTyped(next, ports, ty, index + 1, env1);
      BoundType(env, ports[index].name, v);
      hide TypesIn, EmitInputs, IsInputFrom, NamedFrom;
      var types := TypesIn(EmitInputs(next, ports, ty, index + 1, env1).0);
      assert EmitInputs(st, ports, ty, index, env) == EmitInputs(next, ports, ty, index + 1, env1) by {
        InputStep(st, ports, ty, index, env);
      }
      forall x, t
        ensures MapsTo(types, x, t)
          <==> IsInputFrom(ports, ty.items, x, t, index) || (MapsTo(TypesIn(env), x, t) && !NamedFrom(ports, ty.items, x, index))
      {
        FromHere(ports, ty.items, x, t, index);
        assert MapsTo(TypesIn(env1), x, t) <==> if x == ports[index].name then t == v.ty else MapsTo(TypesIn(env), x, t);
      }
    }
  }

  lemma InputStep(st: State, ports: seq<TypedPort>, ty: Ty, index: nat, env: TextEnv)
    requires ty.Tuple? && index < |ports| && index < |ty.items|
    ensures
      EmitInputs(st, ports, ty, index, env)
      == EmitInputs(Add(st, Extract(st.temp, ty, Input, index)), ports, ty, index + 1,
                    env[ports[index].name := TextValue(Temp(st.temp), ty.items[index])])
  {}

  lemma FromHere(ports: seq<TypedPort>, items: seq<Ty>, x: string, t: Ty, index: nat)
    requires index < |ports| && index < |items|
    ensures NamedFrom(ports, items, x, index) <==> ports[index].name == x || NamedFrom(ports, items, x, index + 1)
    ensures
      IsInputFrom(ports, items, x, t, index)
      <==> || IsInputFrom(ports, items, x, t, index + 1)
           || (ports[index].name == x && items[index] == t && !NamedFrom(ports, items, x, index + 1))
  {
    if ports[index].name == x && items[index] == t && !NamedFrom(ports, items, x, index + 1) {
      assert InputAt(ports, items, x, t, index);
    }
  }

  lemma EnteredTyped(c: TypedCallable, input: Ty, declared: set<Declaration>)
    requires |c.inputs| > 1 ==> input.Tuple?
    ensures
      var env := Entered(c, input, declared).0;
      forall start :: Starts(c.inputs, input, start) <==> start == TypesIn(env)
  {
    if |c.inputs| > 1 {
      var none: TextEnv := map[];
      var env := Entered(c, input, declared).0;
      InputsTyped(State(0, [], declared), c.inputs, input, 0, none);
      forall x, t
        ensures IsInputFrom(c.inputs, input.items, x, t, 0) <==> IsInput(c.inputs, input.items, x, t)
      {}
      forall start | Starts(c.inputs, input, start)
        ensures start == TypesIn(env)
      {
        SameMaps(start, TypesIn(env), c.inputs, input.items);
      }
    }
  }

  lemma SameMaps(a: TypeEnv, b: TypeEnv, ports: seq<TypedPort>, items: seq<Ty>)
    requires forall x, t :: MapsTo(a, x, t) <==> IsInput(ports, items, x, t)
    requires forall x, t :: MapsTo(b, x, t) <==> IsInput(ports, items, x, t)
    ensures a == b
  {
    hide IsInput;
    forall x | x in a
      ensures x in b && b[x] == a[x]
    {
      assert MapsTo(a, x, a[x]);
      assert MapsTo(b, x, a[x]);
    }
    forall x | x in b
      ensures x in a
    {
      assert MapsTo(b, x, b[x]);
      assert MapsTo(a, x, b[x]);
    }
  }

  lemma {:induction false} OutputsBound(ports: seq<TypedPort>, env: TextEnv)
    ensures OutputValues(ports, env).Some? <==> forall i :: 0 <= i < |ports| ==> ports[i].name in env
    ensures OutputValues(ports, env).Some? ==> |OutputValues(ports, env).value| == |ports|
  {
    if ports != [] {
      OutputsBound(ports[1..], env);
      assert forall i :: 0 < i < |ports| ==> ports[i] == ports[1..][i - 1];
    }
  }

  lemma ResultTyped(st: State, ports: seq<TypedPort>, env: TextEnv, output: Ty)
    ensures
      var r := EmitOutputs(st, ports, env, output);
      forall u :: Returns(ports, TypesIn(env), output, u) <==> r.Some? && r.value.0.ty == u
  {
    hide OutputValues, InsertAll;
    if |ports| > 1 && output.Tuple? {
      var first := if |ports| <= |output.items| then ports else ports[..|output.items|];
      OutputsBound(first, env);
      assert forall i :: 0 <= i < |first| ==> first[i] == ports[i];
    }
  }

  /**
   * A function is written for a callable just when types can be followed through its chains by the rules, and then
   * it returns a value of the type that comes out.
   */
  lemma EmittedIff(cg: Codegen, c: TypedCallable, input: Ty, output: Ty, declared: set<Declaration>, u: Ty)
    ensures
      var r := EmitCallable(cg, c, input, output, declared);
      r.Some? && r.value.0.result.ty == u
      <==> exists start, next ::
             Starts(c.inputs, input, start) && AllBind(cg, c.chains, start, next) && Returns(c.outputs, next, output, u)
  {
    hide Starts, AllBind, Returns, TypesIn, Entered, EmitChains, EmitOutputs;
    if |c.inputs| > 1 && !input.Tuple? {
      NothingStarts(c.inputs, input);
    } else {
      var entered := Entered(c, input, declared);
      EnteredTyped(c, input, declared);
      ChainsTyped(cg, entered.1, c.chains, entered.0);
      var body := EmitChains(cg, entered.1, c.chains, entered.0);
      if body.Some? {
        ResultTyped(body.value.1, c.outputs, body.value.0, output);
        assert Starts(c.inputs, input, TypesIn(entered.0));
        assert AllBind(cg, c.chains, TypesIn(entered.0), TypesIn(body.value.0));
      }
    }
  }

  lemma NothingStarts(ports: seq<TypedPort>, input: Ty)
    requires |ports| > 1 && !input.Tuple?
    ensures forall env :: !Starts(ports, input, env)
  {}

  // ---- Which instruction a call becomes ----

  /** Operations that are instructions of their own, on two numbers of the type of the result. */
  predicate IsOperation(name: string, input: Ty, output: Ty)
  {
    && input == Ty.Tuple([output, output])
    && (output.I32? || output.I64? || output.F32? || output.F64?)
    && (name == "rem" ==> output.I32? || output.I64?)
    && (name == "add" || name == "sub" || name == "mul" || name == "div" || name == "rem" || name == "min" || name == "max")
  }

  /** The name of the operation in the text. */
  function OperationText(name: string, t: Ty): string
  {
    if t == F32 || t == F64 then "f" + name
    else if name == "div" || name == "rem" then "s" + name
    else name
  }

  lemma OperationTexts()
    ensures "f" + "add" == "fadd" && "f" + "sub" == "fsub" && "f" + "mul" == "fmul" && "f" + "div" == "fdiv"
    ensures "s" + "div" == "sdiv" && "s" + "rem" == "srem"
  {}

  lemma NumericIff(name: string, input: Ty, output: Ty)
    ensures IsNumeric(name, input, output) <==> IsOperation(name, input, output)
  {
    if input.Tuple? && |input.items| == 2 && input.items[0] == input.items[1] == output {
      assert input.items == [output, output];
    }
  }

  lemma TextIs(name: string, input: Ty, output: Ty)
    requires IsOperation(name, input, output)
    ensures
      name != "min" && name != "max" ==>
        NumericInstruction(name, output) == Some(OperationText(name, output))
  {
    OperationTexts();
  }

  /**
   * A call is one of the emitted callables, of a foreign symbol, an operation on the two items of its argument, or a
   * call of the built-in node, whichever comes first.
   */
  lemma CallBecomes(cg: Codegen, st: State, name: string, v: TextValue)
    requires EmitCall(cg, st, name, v).Some?
    ensures
      var (w, st') := EmitCall(cg, st, name, v).value;
      var ty, builtin, t := w.ty, cg.canonical(name), st.temp;
      var items := [Extract(t, v.ty, v.operand, 0), Extract(t + 1, v.ty, v.operand, 1)];
      && cg.outputType(name, v.ty) == Some(ty)
      && (name in cg.callables ==> st'.code == st.code + [Invoke(t, ty, Callee.User(name), [v])])
      && (name !in cg.callables && name in cg.foreign ==>
            st'.code == st.code + [Invoke(t, ty, Callee.Foreign(cg.foreign[name]), [v])])
      && (name !in cg.callables && name !in cg.foreign ==>
            && (!IsOperation(builtin, v.ty, ty) ==> st'.code == st.code + [Invoke(t, ty, Builtin(builtin), [v])])
            && (IsOperation(builtin, v.ty, ty) && builtin != "min" && builtin != "max" ==>
                  st'.code == st.code + items + [Arith(t + 2, OperationText(builtin, ty), ty, Temp(t), Temp(t + 1))])
            && (IsOperation(builtin, v.ty, ty) && (builtin == "min" || builtin == "max") ==>
                  var order := (if ty == F32 || ty == F64 then "o" else "s") + (if builtin == "min" then "lt" else "gt");
                  st'.code == st.code + items + [Compare(t + 3, order, ty, Temp(t), Temp(t + 1)),
                                                 Choose(t + 2, ty, Temp(t + 3), Temp(t), Temp(t + 1))]))
  {
    var ty := cg.outputType(name, v.ty).value;
    var builtin := cg.canonical(name);
    NumericIff(builtin, v.ty, ty);
    if name !in cg.callables && name !in cg.foreign && IsOperation(builtin, v.ty, ty) {
      TextIs(builtin, v.ty, ty);
      OperationWritten(st, builtin, v, ty);
    }
  }

  lemma OperationWritten(st: State, name: string, v: TextValue, ty: Ty)
    requires IsNumeric(name, v.ty, ty)
    ensures
      var st', t := EmitNumeric(st, name, v, ty).1, st.temp;
      var items := [Extract(t, v.ty, v.operand, 0), Extract(t + 1, v.ty, v.operand, 1)];
      if name == "min" || name == "max" then
        var order := (if ty == F32 || ty == F64 then "o" else "s") + (if name == "min" then "lt" else "gt");
        st'.code == st.code + items + [Compare(t + 3, order, ty, Temp(t), Temp(t + 1)),
                                       Choose(t + 2, ty, Temp(t + 3), Temp(t), Temp(t + 1))]
      else st'.code == st.code + items + [Arith(t + 2, NumericInstruction(name, ty).value, ty, Temp(t), Temp(t + 1))]
  {
    hide NumericInstruction;
  }
}
