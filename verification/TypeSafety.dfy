/** The scalar part of a graph that type-checks runs to values of the types it was given. */
module TypeSafety {
  import opened Ast
  import opened Types
  import opened Typed
  import opened Checking
  import opened AnnotatedGraphs
  import Assignability
  import Run = GraphRun

  // ---- Values of a type ----

  ghost predicate HasType(v: Run.Value, t: Ty)
    decreases t
  {
    match t
    case I32 => v.I32V?
    case I64 => v.I64V?
    case F32 => v.RealV?
    case F64 => v.RealV?
    case Bool => v.BoolV?
    case Tuple(items) =>
      v.TupleV? && |v.items| == |items| && forall i :: 0 <= i < |items| ==> HasType(v.items[i], items[i])
    case Faultable(item) => v.FaultV? || (v.OkV? && HasType(v.value, item))
    case _ => false
  }

  ghost predicate AllHaveTypes(vs: seq<Run.Value>, ts: seq<Ty>)
  {
    |vs| == |ts| && forall i :: 0 <= i < |ts| ==> HasType(vs[i], ts[i])
  }

  /** No fault is directly around a fault, at any depth. */
  predicate NoNestedFault(t: Ty)
    decreases t
  {
    match t
    case Faultable(item) => !item.Faultable? && NoNestedFault(item)
    case Seq(item) => NoNestedFault(item)
    case Stream(item) => NoNestedFault(item)
    case Tuple(items) => forall i :: 0 <= i < |items| ==> NoNestedFault(items[i])
    case OneOf(items) => forall i :: 0 <= i < |items| ==> NoNestedFault(items[i])
    case Struct(_, fields) => forall i :: 0 <= i < |fields| ==> NoNestedFault(fields[i].ty)
    case _ => true
  }

  // ---- Ports ----

  predicate Names(ports: seq<TypedPort>, x: string) { exists i :: 0 <= i < |ports| && ports[i].name == x }

  /** The names differ, and none is taken. */
  predicate Fresh(ports: seq<TypedPort>, taken: set<string>)
  {
    && (forall i :: 0 <= i < |ports| ==> ports[i].name !in taken)
    && (forall i, j :: 0 <= i < j < |ports| ==> ports[i].name != ports[j].name)
  }

  /** The ports are added to an environment of values, each with a value of its type. */
  ghost predicate Gains(env: Run.Env, next: Run.Env, ports: seq<TypedPort>)
  {
    && (forall x :: x in next <==> x in env || Names(ports, x))
    && (forall x :: x in env ==> x in next && next[x] == env[x])
    && (forall i :: 0 <= i < |ports| ==> ports[i].name in next && HasType(next[ports[i].name], ports[i].ty))
  }

  lemma NamesJoin(p: seq<TypedPort>, q: seq<TypedPort>)
    ensures forall x :: Names(p + q, x) <==> Names(p, x) || Names(q, x)
  {
    forall x | Names(p, x) || Names(q, x)
      ensures Names(p + q, x)
    {
      if Names(p, x) {
        var i :| 0 <= i < |p| && p[i].name == x;
        assert (p + q)[i].name == x;
      } else {
        var i :| 0 <= i < |q| && q[i].name == x;
        assert (p + q)[|p| + i].name == x;
      }
    }
  }

  lemma FreshJoin(p: seq<TypedPort>, q: seq<TypedPort>, taken: set<string>, more: set<string>)
    requires forall x :: x in more <==> x in taken || Names(p, x)
    ensures Fresh(p + q, taken) <==> Fresh(p, taken) && Fresh(q, more)
  {
    var all := p + q;
    assert forall i :: 0 <= i < |p| ==> all[i] == p[i];
    assert forall i :: 0 <= i < |q| ==> all[|p| + i] == q[i];
    if Fresh(all, taken) {
      assert Fresh(p, taken);
      forall i | 0 <= i < |q|
        ensures q[i].name !in more
      {
        assert all[|p| + i].name !in taken;
      }
      assert Fresh(q, more);
    }
    if Fresh(p, taken) && Fresh(q, more) {
      forall i, j | 0 <= i < j < |all|
        ensures all[i].name != all[j].name
      {
        if i < |p| <= j { assert Names(p, p[i].name) && q[j - |p|].name !in more; }
      }
    }
  }

  lemma GainsJoin(a: Run.Env, b: Run.Env, c: Run.Env, p: seq<TypedPort>, q: seq<TypedPort>)
    requires Gains(a, b, p) && Gains(b, c, q)
    ensures Gains(a, c, p + q)
  {
    hide HasType, Names;
    NamesJoin(p, q);
    var all := p + q;
    forall i | 0 <= i < |all|
      ensures all[i].name in c && HasType(c[all[i].name], all[i].ty)
    {
      if i < |p| { assert all[i] == p[i]; } else { assert all[i] == q[i - |p|]; }
    }
  }

  // ---- Destructuring ----

  lemma ProjectionHasType(v: Run.Value, t: Ty)
    requires HasType(v, t)
    ensures HasType(Run.Projected(v), Projection(t))
  {}

  /** Taking a value apart gives each name a value of its type, whenever the names are new. */
  lemma {:induction false} TargetKeepsTypes(t: BindingTarget, v: Run.Value, ty: Ty, env: Run.Env)
    requires HasType(v, ty) && TargetTypes(t, ty).Some?
    ensures Run.BindTarget(t, v, env).Some? <==> Fresh(TargetTypes(t, ty).value, env.Keys)
    ensures Run.BindTarget(t, v, env).Some? ==> Gains(env, Run.BindTarget(t, v, env).value, TargetTypes(t, ty).value)
    decreases t, 0
  {
    match t
    case Drop =>
    case Bound(x) => assert TargetTypes(t, ty).value[0] == TypedPort(x, ty);
    case Both(items) =>
      hide Gains, Fresh;
      var n := |items|;
      if ty.Tuple? {
        TargetsKeepTypes(items, v.items, ty.items, env);
      } else {
        var tys := seq(n, i requires 0 <= i < n => Projection(ty.item.items[i]));
        var vs := if v.FaultV? then seq(n, _ => Run.FaultV)
                  else seq(n, i requires 0 <= i < n => Run.Projected(v.value.items[i]));
        forall i | 0 <= i < n
          ensures HasType(vs[i], tys[i])
        {
          if v.OkV? { ProjectionHasType(v.value.items[i], ty.item.items[i]); }
        }
        TargetsKeepTypes(items, vs, tys, env);
      }
  }

  lemma {:induction false} TargetsKeepTypes(ts: seq<BindingTarget>, vs: seq<Run.Value>, tys: seq<Ty>, env: Run.Env)
    requires |ts| == |tys| && AllHaveTypes(vs, tys) && TargetListTypes(ts, tys).Some?
    ensures Run.BindTargets(ts, vs, env).Some? <==> Fresh(TargetListTypes(ts, tys).value, env.Keys)
    ensures
      Run.BindTargets(ts, vs, env).Some? ==>
        Gains(env, Run.BindTargets(ts, vs, env).value, TargetListTypes(ts, tys).value)
    decreases ts, 0
  {
    if ts != [] {
      hide HasType, Run.BindTarget, TargetTypes;
      var first := TargetTypes(ts[0], tys[0]).value;
      var rest := TargetListTypes(ts[1..], tys[1..]).value;
      TargetKeepsTypes(ts[0], vs[0], tys[0], env);
      var next := Run.BindTarget(ts[0], vs[0], env);
      if next.Some? {
        FreshJoin(first, rest, env.Keys, next.value.Keys);
        TargetsKeepTypes(ts[1..], vs[1..], tys[1..], next.value);
        var last := Run.BindTargets(ts[1..], vs[1..], next.value);
        if last.Some? { GainsJoin(env, next.value, last.value, first, rest); }
      } else {
        FreshJoin(first, rest, env.Keys, env.Keys + set i | 0 <= i < |first| :: first[i].name);
      }
    }
  }

  /** From nothing: the names of the ports, each with a value of its port's type. */
  lemma DestructuringKeepsTypes(t: BindingTarget, v: Run.Value, ty: Ty)
    requires HasType(v, ty) && TargetTypes(t, ty).Some? && Run.BindTarget(t, v, map[]).Some?
    ensures
      var ports, env := TargetTypes(t, ty).value, Run.BindTarget(t, v, map[]).value;
      && env.Keys == (set i | 0 <= i < |ports| :: ports[i].name)
      && forall i :: 0 <= i < |ports| ==> HasType(env[ports[i].name], ports[i].ty)
  {
    TargetKeepsTypes(t, v, ty, map[]);
    hide HasType;
    var env := Run.BindTarget(t, v, map[]).value;
    assert forall x :: x in env <==> Names(TargetTypes(t, ty).value, x);
  }

  lemma {:induction false} PortsHaveNoNestedFault(t: BindingTarget, ty: Ty)
    requires NoNestedFault(ty) && TargetTypes(t, ty).Some?
    ensures forall i :: 0 <= i < |TargetTypes(t, ty).value| ==> NoNestedFault(TargetTypes(t, ty).value[i].ty)
    decreases t, 0
  {
    if t.Both? {
      if ty.Tuple? {
        ListPortsHaveNoNestedFault(t.items, ty.items);
      } else {
        var n := |t.items|;
        ListPortsHaveNoNestedFault(t.items, seq(n, i requires 0 <= i < n => Projection(ty.item.items[i])));
      }
    }
  }

  lemma {:induction false} ListPortsHaveNoNestedFault(ts: seq<BindingTarget>, tys: seq<Ty>)
    requires |ts| == |tys| && TargetListTypes(ts, tys).Some?
    requires forall i :: 0 <= i < |tys| ==> NoNestedFault(tys[i])
    ensures
      var ports := TargetListTypes(ts, tys).value;
      forall i :: 0 <= i < |ports| ==> NoNestedFault(ports[i].ty)
    decreases ts, 0
  {
    hide NoNestedFault, TargetTypes;
    if ts != [] {
      PortsHaveNoNestedFault(ts[0], tys[0]);
      ListPortsHaveNoNestedFault(ts[1..], tys[1..]);
    }
  }

  // ---- Types of names ----

  /** The ports are added to an environment of types. */
  ghost predicate Gets(env: Env, next: Env, ports: seq<TypedPort>)
  {
    && (forall x :: x in next <==> x in env || Names(ports, x))
    && (forall x :: x in env ==> x in next && next[x] == env[x])
    && (forall i :: 0 <= i < |ports| ==> ports[i].name in next && next[ports[i].name] == ports[i].ty)
  }

  lemma FirstFresh(ports: seq<TypedPort>, env: Env)
    requires ports != []
    ensures
      Fresh(ports, env.Keys)
      <==> ports[0].name !in env && Fresh(ports[1..], env[ports[0].name := ports[0].ty].Keys)
  {
    var rest := ports[1..];
    assert forall i :: 0 <= i < |rest| ==> rest[i] == ports[i + 1];
    assert forall i :: 1 <= i < |ports| ==> ports[i] == rest[i - 1];
  }

  lemma FirstGets(ports: seq<TypedPort>, env: Env, last: Env)
    requires ports != [] && ports[0].name !in env && Gets(env[ports[0].name := ports[0].ty], last, ports[1..])
    ensures Gets(env, last, ports)
  {
    NamesJoin([ports[0]], ports[1..]);
    assert ports == [ports[0]] + ports[1..];
    assert [ports[0]][0].name == ports[0].name;
    assert forall i :: 1 <= i < |ports| ==> ports[i] == ports[1..][i - 1];
  }

  /** Names are bound when they are new and their types are known. */
  lemma {:induction false} PortsBound(ports: seq<TypedPort>, env: Env)
    ensures
      BindAll(ports, env).Some?
      <==> Fresh(ports, env.Keys) && forall i :: 0 <= i < |ports| ==> !HasEmptySeq(ports[i].ty)
    ensures BindAll(ports, env).Some? ==> Gets(env, BindAll(ports, env).value, ports)
    decreases |ports|
  {
    if ports != [] {
      hide HasEmptySeq;
      var p, rest := ports[0], ports[1..];
      var next := env[p.name := p.ty];
      PortsBound(rest, next);
      assert forall i :: 1 <= i < |ports| ==> ports[i] == rest[i - 1];
      hide Fresh, Gets, Names;
      FirstFresh(ports, env);
      if BindAll(ports, env).Some? { FirstGets(ports, env, BindAll(rest, next).value); }
    }
  }

  /** Values for the same names, each of its type. */
  ghost predicate EnvHasTypes(values: Run.Env, types: Env)
  {
    values.Keys == types.Keys && forall x :: x in values ==> HasType(values[x], types[x])
  }

  /** What the checker binds, running binds, to values of the types. */
  lemma BoundHaveTypes(t: BindingTarget, v: Run.Value, ty: Ty, values: Run.Env, types: Env)
    requires HasType(v, ty) && TargetTypes(t, ty).Some? && EnvHasTypes(values, types)
    requires BindAll(TargetTypes(t, ty).value, types).Some?
    ensures Run.BindTarget(t, v, values).Some?
    ensures EnvHasTypes(Run.BindTarget(t, v, values).value, BindAll(TargetTypes(t, ty).value, types).value)
  {
    hide HasType, TargetTypes, BindAll, HasEmptySeq, Run.BindTarget;
    var ports := TargetTypes(t, ty).value;
    PortsBound(ports, types);
    TargetKeepsTypes(t, v, ty, values);
    var more, next := Run.BindTarget(t, v, values).value, BindAll(ports, types).value;
    forall x | x in more
      ensures HasType(more[x], next[x])
    {
      if x !in values { var i :| 0 <= i < |ports| && ports[i].name == x; }
    }
  }

  // ---- Graphs ----

  /** What the type of a node promises: an answer, if there is one, is of the type the checker looks up. */
  ghost predicate NodesKeepTypes(r: Rules, world: Run.World, names: Run.SymbolNames, fuel: nat)
  {
    forall inline: bool, n: NodeRef, t: Ty, v: Run.Value | HasType(v, t) && r.node(inline, n, t).Some? ::
      NodeKeepsType(r, world, names, inline, n, t, v, fuel)
  }

  ghost predicate NodeKeepsType(r: Rules, world: Run.World, names: Run.SymbolNames, inline: bool, n: NodeRef, t: Ty,
    v: Run.Value, fuel: nat)
    requires r.node(inline, n, t).Some?
  {
    var w := Run.RunCall(world, names, r.text(n), r.symbol(r.text(n)), v, fuel);
    w.Some? ==> HasType(w.value, r.node(inline, n, t).value)
  }

  // The steps of both sides, one at a time.

  lemma TupleStep(r: Rules, world: Run.World, names: Run.SymbolNames, items: seq<Endpoint>, types: Env,
      values: Run.Env, fuel: nat)
    requires TypeEndpoint(r, Endpoint.Tuple(items), types).Some?
    ensures
      var typed := TypeEndpoint(r, Endpoint.Tuple(items), types).value;
      && TypeItems(r, items, types).Some?
      && var ts := TypeItems(r, items, types).value;
         var vs := Run.RunItems(world, names, ts, values, fuel);
         && typed.ty == Ty.Tuple(TypesOf(ts))
         && Run.RunEndpoint(world, names, typed, values, fuel)
            == (if vs.None? then None else Some(Run.TupleV(vs.value)))
  {
    hide TypeItems, Run.RunItems;
  }

  lemma EvalStep(r: Rules, world: Run.World, names: Run.SymbolNames, source: Endpoint, stages: seq<Stage>, types: Env,
      values: Run.Env, fuel: nat)
    requires TypeEndpoint(r, Endpoint.Eval(source, stages), types).Some?
    ensures
      var typed := TypeEndpoint(r, Endpoint.Eval(source, stages), types).value;
      && TypeEndpoint(r, source, types).Some?
      && var s := TypeEndpoint(r, source, types).value;
         var v := Run.RunEndpoint(world, names, s, values, fuel);
         && TypeInline(r, stages, s.ty, types).Some?
         && var ss := TypeInline(r, stages, s.ty, types).value;
            var got := Run.RunEndpoint(world, names, typed, values, fuel);
            && typed.ty == LastOutput(s.ty, ss)
            && (v.None? ==> got.None?)
            && (v.Some? ==>
                  var w := Run.RunStages(world, names, ss, v.value, values, fuel);
                  got == if w.None? then None else Some(w.value.0))
  {
    hide TypeInline, Run.RunStages;
  }

  /** Literals and names; texts, the unit value, sequences and structs do not run here. */
  lemma LeafKeepsType(r: Rules, world: Run.World, names: Run.SymbolNames, e: Endpoint, types: Env, values: Run.Env,
      fuel: nat)
    requires EnvHasTypes(values, types) && TypeEndpoint(r, e, types).Some? && !e.Tuple? && !e.Eval?
    ensures
      var typed := TypeEndpoint(r, e, types).value;
      var v := Run.RunEndpoint(world, names, typed, values, fuel);
      v.Some? ==> HasType(v.value, typed.ty)
  {
    hide EndpointType, TypeItems, TypeFields, SequenceItems;
  }

  lemma {:induction false} EndpointKeepsType(r: Rules, world: Run.World, names: Run.SymbolNames, e: Endpoint,
      types: Env, values: Run.Env, fuel: nat)
    requires NodesKeepTypes(r, world, names, fuel) && EnvHasTypes(values, types) && TypeEndpoint(r, e, types).Some?
    ensures
      var typed := TypeEndpoint(r, e, types).value;
      var v := Run.RunEndpoint(world, names, typed, values, fuel);
      v.Some? ==> HasType(v.value, typed.ty)
    decreases e, 1
  {
    hide Run.RunEndpoint, Run.RunItems, Run.RunStages, TypeEndpoint, TypeItems, TypeInline, NodesKeepTypes;
    match e
    case Tuple(items) =>
      TupleStep(r, world, names, items, types, values, fuel);
      ItemsKeepTypes(r, world, names, items, types, values, fuel);
    case Eval(source, stages) =>
      hide HasType;
      EvalStep(r, world, names, source, stages, types, values, fuel);
      EndpointKeepsType(r, world, names, source, types, values, fuel);
      var s := TypeEndpoint(r, source, types).value;
      var v := Run.RunEndpoint(world, names, s, values, fuel);
      if v.Some? { InlineKeepsType(r, world, names, stages, s.ty, types, v.value, values, fuel); }
    case _ => LeafKeepsType(r, world, names, e, types, values, fuel);
  }

  lemma TypesJoin(v: Run.Value, vs: seq<Run.Value>, first: TypedEndpoint, rest: seq<TypedEndpoint>)
    requires HasType(v, first.ty) && AllHaveTypes(vs, TypesOf(rest))
    ensures AllHaveTypes([v] + vs, TypesOf([first] + rest))
  {
    hide HasType;
  }

  lemma ItemsRun(world: Run.World, names: Run.SymbolNames, first: TypedEndpoint, rest: seq<TypedEndpoint>,
      values: Run.Env, fuel: nat)
    ensures
      var v := Run.RunEndpoint(world, names, first, values, fuel);
      var vs := Run.RunItems(world, names, rest, values, fuel);
      Run.RunItems(world, names, [first] + rest, values, fuel)
      == if v.None? || vs.None? then None else Some([v.value] + vs.value)
  {
    hide Run.RunEndpoint;
    assert ([first] + rest)[1..] == rest;
  }

  lemma {:induction false} ItemsKeepTypes(r: Rules, world: Run.World, names: Run.SymbolNames, items: seq<Endpoint>,
      types: Env, values: Run.Env, fuel: nat)
    requires NodesKeepTypes(r, world, names, fuel) && EnvHasTypes(values, types) && TypeItems(r, items, types).Some?
    ensures
      var typed := TypeItems(r, items, types).value;
      var vs := Run.RunItems(world, names, typed, values, fuel);
      vs.Some? ==> AllHaveTypes(vs.value, TypesOf(typed))
    decreases items, 1
  {
    hide HasType, Run.RunEndpoint, TypeEndpoint, NodesKeepTypes, EnvHasTypes;
    if items != [] {
      hide AllHaveTypes, Run.RunItems;
      EndpointKeepsType(r, world, names, items[0], types, values, fuel);
      ItemsKeepTypes(r, world, names, items[1..], types, values, fuel);
      var first, rest := TypeEndpoint(r, items[0], types).value, TypeItems(r, items[1..], types).value;
      ItemsRun(world, names, first, rest, values, fuel);
      var v, vs := Run.RunEndpoint(world, names, first, values, fuel), Run.RunItems(world, names, rest, values, fuel);
      if v.Some? && vs.Some? { TypesJoin(v.value, vs.value, first, rest); }
    }
  }

  lemma RunFirst(world: Run.World, names: Run.SymbolNames, s: TypedStage, rest: seq<TypedStage>, v: Run.Value,
      values: Run.Env, fuel: nat)
    ensures
      var got := Run.RunStages(world, names, [s] + rest, v, values, fuel);
      && (s.kind.Call? ==>
            var w := Run.RunCall(world, names, s.kind.name, s.kind.symbol, v, fuel);
            got == if w.None? then None else Run.RunStages(world, names, rest, w.value, values, fuel))
      && (s.kind.Bind? ==>
            var bound := Run.BindTarget(s.kind.target, v, values);
            got == if bound.None? then None else Run.RunStages(world, names, rest, v, bound.value, fuel))
      && (!s.kind.Call? && !s.kind.Bind? ==> got.None?)
  {
    hide Run.RunCall, Run.BindTarget;
    assert ([s] + rest)[0] == s && ([s] + rest)[1..] == rest;
  }

  lemma CallStep(r: Rules, world: Run.World, names: Run.SymbolNames, stages: seq<Stage>, t: Ty, types: Env,
      v: Run.Value, values: Run.Env, fuel: nat)
    requires TypeInline(r, stages, t, types).Some? && stages != [] && stages[0].Value?
    ensures
      var typed := TypeInline(r, stages, t, types).value;
      && stages[0].endpoint.Name?
      && var n := stages[0].endpoint.node;
         var out := r.node(true, n, t);
         var w := Run.RunCall(world, names, r.text(n), r.symbol(r.text(n)), v, fuel);
         && out.Some? && TypeInline(r, stages[1..], out.value, types).Some?
         && var rest := TypeInline(r, stages[1..], out.value, types).value;
            && LastOutput(t, typed) == LastOutput(out.value, rest)
            && Run.RunStages(world, names, typed, v, values, fuel)
               == if w.None? then None else Run.RunStages(world, names, rest, w.value, values, fuel)
  {
    hide Run.RunCall, Run.RunStages;
    var s := TypeStage(r, true, stages[0], t, false, types).value;
    var rest := TypeInline(r, stages[1..], s.0.output, types).value;
    RunFirst(world, names, s.0, rest, v, values, fuel);
    assert ([s.0] + rest)[|rest|] == if rest == [] then s.0 else rest[|rest| - 1];
  }

  /** Other stages than calls do not run inside an evaluation. */
  lemma OtherStep(r: Rules, world: Run.World, names: Run.SymbolNames, stages: seq<Stage>, t: Ty, types: Env,
      v: Run.Value, values: Run.Env, fuel: nat)
    requires TypeInline(r, stages, t, types).Some? && stages != [] && !stages[0].Value?
    ensures Run.RunStages(world, names, TypeInline(r, stages, t, types).value, v, values, fuel).None?
  {
    hide TypeStage, Run.RunStages, Run.RunCall;
    OtherKind(r, stages[0], t, types);
    var s := TypeStage(r, true, stages[0], t, false, types).value;
    RunFirst(world, names, s.0, TypeInline(r, stages[1..], s.0.output, s.1).value, v, values, fuel);
  }

  lemma OtherKind(r: Rules, s: Stage, t: Ty, types: Env)
    requires TypeStage(r, true, s, t, false, types).Some? && !s.Value?
    ensures
      var kind := TypeStage(r, true, s, t, false, types).value.0.kind;
      !kind.Call? && !kind.Bind?
  {
    hide TypeArms, TypeEndpoint, Expects;
  }

  lemma {:induction false} InlineKeepsType(r: Rules, world: Run.World, names: Run.SymbolNames, stages: seq<Stage>,
      t: Ty, types: Env, v: Run.Value, values: Run.Env, fuel: nat)
    requires NodesKeepTypes(r, world, names, fuel) && EnvHasTypes(values, types) && HasType(v, t)
    requires TypeInline(r, stages, t, types).Some?
    ensures
      var typed := TypeInline(r, stages, t, types).value;
      var w := Run.RunStages(world, names, typed, v, values, fuel);
      w.Some? ==> HasType(w.value.0, LastOutput(t, typed))
    decreases stages, 1
  {
    if stages == [] {
      return;
    }
    hide HasType, TypeInline, Run.RunStages, EnvHasTypes, Run.RunCall, LastOutput;
    if stages[0].Value? {
      CallStep(r, world, names, stages, t, types, v, values, fuel);
      var n := stages[0].endpoint.node;
      assert NodeKeepsType(r, world, names, true, n, t, v, fuel);
      var w := Run.RunCall(world, names, r.text(n), r.symbol(r.text(n)), v, fuel);
      if w.Some? {
        InlineKeepsType(r, world, names, stages[1..], r.node(true, n, t).value, types, w.value, values, fuel);
      }
    } else {
      OtherStep(r, world, names, stages, t, types, v, values, fuel);
    }
  }

  // ---- Chains ----

  lemma StagesUnfold(r: Rules, stages: seq<Stage>, t: Ty, types: Env)
    requires TypeStages(r, stages, t, types).Some? && stages != []
    ensures
      var s := TypeStage(r, false, stages[0], t, |stages| == 1, types);
      && s.Some? && TypeStages(r, stages[1..], s.value.0.output, s.value.1).Some?
      && var rest := TypeStages(r, stages[1..], s.value.0.output, s.value.1).value;
         TypeStages(r, stages, t, types) == Some(([s.value.0] + rest.0, rest.1))
  {
    hide TypeStage;
  }

  lemma CallInChain(r: Rules, world: Run.World, names: Run.SymbolNames, stages: seq<Stage>, t: Ty, types: Env,
      v: Run.Value, values: Run.Env, fuel: nat, out: Ty, rest: (seq<TypedStage>, Env))
    requires TypeStages(r, stages, t, types).Some? && stages != [] && stages[0].Value? && stages[0].endpoint.Name?
    requires r.node(false, stages[0].endpoint.node, t) == Some(out)
    requires TypeStages(r, stages[1..], out, types) == Some(rest)
    ensures
      var n := stages[0].endpoint.node;
      var w := Run.RunCall(world, names, r.text(n), r.symbol(r.text(n)), v, fuel);
      && TypeStages(r, stages, t, types).value.1 == rest.1
      && Run.RunStages(world, names, TypeStages(r, stages, t, types).value.0, v, values, fuel)
         == if w.None? then None else Run.RunStages(world, names, rest.0, w.value, values, fuel)
  {
    hide Run.RunCall, TypeStage, Run.RunStages, TypeStages;
    StagesUnfold(r, stages, t, types);
    var typed := CallOf(r, stages[0], t, |stages| == 1, types);
    RunFirst(world, names, typed, rest.0, v, values, fuel);
  }

  lemma CallOf(r: Rules, s: Stage, t: Ty, isLast: bool, types: Env) returns (typed: TypedStage)
    requires TypeStage(r, false, s, t, isLast, types).Some? && s.Value?
    ensures s.endpoint.Name? && TypeStage(r, false, s, t, isLast, types) == Some((typed, types))
    ensures
      var name := r.text(s.endpoint.node);
      typed.kind == StageKind.Call(name, r.symbol(name)) && r.node(false, s.endpoint.node, t) == Some(typed.output)
  {
    hide TypeStage;
    KindOfStage(r, s, t, isLast, types);
    typed := TypeStage(r, false, s, t, isLast, types).value.0;
  }

  lemma CallIsTyped(r: Rules, stages: seq<Stage>, t: Ty, types: Env)
    requires TypeStages(r, stages, t, types).Some? && stages != [] && stages[0].Value?
    ensures
      && stages[0].endpoint.Name? && r.node(false, stages[0].endpoint.node, t).Some?
      && TypeStages(r, stages[1..], r.node(false, stages[0].endpoint.node, t).value, types).Some?
  {
    hide TypeStage;
    KindOfStage(r, stages[0], t, |stages| == 1, types);
  }

  /** Only calls and bindings run. */
  lemma OtherInChain(r: Rules, world: Run.World, names: Run.SymbolNames, stages: seq<Stage>, t: Ty, types: Env,
      v: Run.Value, values: Run.Env, fuel: nat)
    requires TypeStages(r, stages, t, types).Some? && stages != [] && !stages[0].Value? && !stages[0].Bind?
    ensures Run.RunStages(world, names, TypeStages(r, stages, t, types).value.0, v, values, fuel).None?
  {
    hide Run.RunCall, TypeStage, Run.RunStages, TypeStages;
    StagesUnfold(r, stages, t, types);
    KindOfStage(r, stages[0], t, |stages| == 1, types);
    var s := TypeStage(r, false, stages[0], t, |stages| == 1, types).value;
    RunFirst(world, names, s.0, TypeStages(r, stages[1..], s.0.output, s.1).value.0, v, values, fuel);
  }

  lemma KindOfStage(r: Rules, s: Stage, t: Ty, isLast: bool, types: Env)
    requires TypeStage(r, false, s, t, isLast, types).Some?
    ensures
      var typed := TypeStage(r, false, s, t, isLast, types).value;
      && (!s.Value? && !s.Bind? ==> !typed.0.kind.Call? && !typed.0.kind.Bind?)
      && (s.Value? ==>
            && s.endpoint.Name? && r.node(false, s.endpoint.node, t) == Some(typed.0.output)
            && var name := r.text(s.endpoint.node);
               typed == (TypedStage(t, typed.0.output, StageKind.Call(name, r.symbol(name))), types))
  {
    hide TypeArms, TypeEndpoint, Expects;
  }

  lemma BindStep(r: Rules, world: Run.World, names: Run.SymbolNames, stages: seq<Stage>, t: Ty, types: Env,
      v: Run.Value, values: Run.Env, fuel: nat)
    requires TypeStages(r, stages, t, types).Some? && stages != [] && stages[0].Bind?
    ensures
      var target := stages[0].target;
      var bound := Run.BindTarget(target, v, values);
      && TargetTypes(target, t).Some? && BindAll(TargetTypes(target, t).value, types).Some?
      && TypeStages(r, stages, t, types).value.1 == BindAll(TargetTypes(target, t).value, types).value
      && Run.RunStages(world, names, TypeStages(r, stages, t, types).value.0, v, values, fuel)
         == if bound.None? then None else Some((v, bound.value))
  {
    hide Run.BindTarget, TargetTypes, BindAll, Run.RunCall;
    var s := TypeStage(r, false, stages[0], t, true, types).value;
    assert stages == [stages[0]] && stages[1..] == [];
    assert TypeStages(r, [], s.0.output, s.1) == Some(([], s.1));
    RunFirst(world, names, s.0, [], v, values, fuel);
    assert TypeStages(r, stages, t, types).value.0 == [s.0] + [];
  }

  lemma {:induction false} StagesKeepTypes(r: Rules, world: Run.World, names: Run.SymbolNames, stages: seq<Stage>,
      t: Ty, types: Env, v: Run.Value, values: Run.Env, fuel: nat)
    requires NodesKeepTypes(r, world, names, fuel) && EnvHasTypes(values, types) && HasType(v, t)
    requires TypeStages(r, stages, t, types).Some?
    ensures
      var typed := TypeStages(r, stages, t, types).value;
      var got := Run.RunStages(world, names, typed.0, v, values, fuel);
      got.Some? ==> EnvHasTypes(got.value.1, typed.1)
    decreases |stages|
  {
    if stages == [] {
      return;
    }
    hide HasType, TypeStages, Run.RunStages, EnvHasTypes, Run.RunCall, TargetTypes, BindAll, Run.BindTarget;
    if stages[0].Value? {
      CallIsTyped(r, stages, t, types);
      var n := stages[0].endpoint.node;
      var out := r.node(false, n, t).value;
      CallInChain(r, world, names, stages, t, types, v, values, fuel, out, TypeStages(r, stages[1..], out, types).value);
      assert NodeKeepsType(r, world, names, false, n, t, v, fuel);
      var w := Run.RunCall(world, names, r.text(n), r.symbol(r.text(n)), v, fuel);
      if w.Some? { StagesKeepTypes(r, world, names, stages[1..], out, types, w.value, values, fuel); }
    } else if stages[0].Bind? {
      BindStep(r, world, names, stages, t, types, v, values, fuel);
      BoundHaveTypes(stages[0].target, v, t, values, types);
    } else {
      OtherInChain(r, world, names, stages, t, types, v, values, fuel);
    }
  }

  lemma {:induction false} ChainsKeepTypes(r: Rules, world: Run.World, names: Run.SymbolNames, chains: seq<Chain>,
      types: Env, values: Run.Env, fuel: nat)
    requires NodesKeepTypes(r, world, names, fuel) && EnvHasTypes(values, types) && TypeChains(r, chains, types).Some?
    ensures
      var typed := TypeChains(r, chains, types).value;
      var got := Run.RunChains(world, names, typed.0, values, fuel);
      got.Some? ==> EnvHasTypes(got.value, typed.1)
    decreases |chains|
  {
    hide HasType, EnvHasTypes, NodesKeepTypes, TypeEndpoint, TypeStages, Run.RunEndpoint, Run.RunStages;
    if chains != [] {
      var s := TypeEndpoint(r, chains[0].source, types).value;
      var ss := TypeStages(r, chains[0].stages, s.ty, types).value;
      var rest := TypeChains(r, chains[1..], ss.1).value;
      EndpointKeepsType(r, world, names, chains[0].source, types, values, fuel);
      assert ([TypedChain(s, ss.0)] + rest.0)[1..] == rest.0;
      var v := Run.RunEndpoint(world, names, s, values, fuel);
      if v.Some? {
        StagesKeepTypes(r, world, names, chains[0].stages, s.ty, types, v.value, values, fuel);
        var next := Run.RunStages(world, names, ss.0, v.value, values, fuel);
        if next.Some? { ChainsKeepTypes(r, world, names, chains[1..], ss.1, next.value.1, fuel); }
      }
    }
  }

  // ---- Callables ----

  function PortTypes(ports: seq<TypedPort>): (ts: seq<Ty>)
    ensures |ts| == |ports| && forall i :: 0 <= i < |ts| ==> ts[i] == ports[i].ty
  {
    if ports == [] then [] else [ports[0].ty] + PortTypes(ports[1..])
  }

  /** Inputs are declared when their types are and their names differ. */
  lemma {:induction false} InputsDeclared(r: Rules, ports: seq<Port>, env: Env)
    ensures
      InputEnv(r, ports, env).Some?
      <==> TypePorts(r, ports).Some? && Fresh(TypePorts(r, ports).value, env.Keys)
    ensures InputEnv(r, ports, env).Some? ==> Gets(env, InputEnv(r, ports, env).value, TypePorts(r, ports).value)
    decreases |ports|
  {
    if ports != [] && r.declared(ports[0].ty).Some? {
      var ty := r.declared(ports[0].ty).value;
      InputsDeclared(r, ports[1..], env[ports[0].name := ty]);
      var rest := TypePorts(r, ports[1..]);
      hide Fresh, Gets;
      if rest.Some? {
        var all := [TypedPort(ports[0].name, ty)] + rest.value;
        assert TypePorts(r, ports) == Some(all) && all[1..] == rest.value;
        FirstFresh(all, env);
        if InputEnv(r, ports, env).Some? { FirstGets(all, env, InputEnv(r, ports, env).value); }
      }
    }
  }

  lemma NamedPort(t: BindingTarget, port: TypedPort)
    requires t == Bound(port.name)
    ensures TargetTypes(t, port.ty) == Some([port])
  {}

  lemma {:induction false} NamedPorts(ts: seq<BindingTarget>, ports: seq<TypedPort>)
    requires |ts| == |ports| && forall i :: 0 <= i < |ts| ==> ts[i] == Bound(ports[i].name)
    ensures TargetListTypes(ts, PortTypes(ports)) == Some(ports)
    decreases |ts|
  {
    if ts != [] {
      NamedPort(ts[0], ports[0]);
      assert PortTypes(ports)[0] == ports[0].ty;
      assert PortTypes(ports)[1..] == PortTypes(ports[1..]);
      hide TargetTypes, PortTypes;
      NamedPorts(ts[1..], ports[1..]);
      assert ports == [ports[0]] + ports[1..];
    }
  }

  lemma ItemsAreInputs(ports: seq<TypedPort>, v: Run.Value, types: Env)
    requires |ports| > 1 && HasType(v, Ty.Tuple(PortTypes(ports))) && Fresh(ports, {}) && Gets(map[], types, ports)
    ensures Run.BindInputs(ports, v).Some? && EnvHasTypes(Run.BindInputs(ports, v).value, types)
  {
    hide HasType, Run.BindTargets, TargetListTypes, Fresh, Gets, Gains;
    var ts := seq(|ports|, i requires 0 <= i < |ports| => Bound(ports[i].name));
    NamedPorts(ts, ports);
    TupleHasTypes(v, PortTypes(ports));
    var none: Run.Env := map[];
    assert none.Keys == {};
    TargetsKeepTypes(ts, v.items, PortTypes(ports), none);
    GainsAndGets(Run.BindTargets(ts, v.items, none).value, types, ports);
  }

  /** An argument of the type of the inputs gives every input a value of its type. */
  lemma InputsKeepTypes(r: Rules, ports: seq<Port>, v: Run.Value)
    requires InputEnv(r, ports, map[]).Some? && TypePorts(r, ports).Some?
    requires ports != [] ==> HasType(v, SingleOrTuple(PortTypes(TypePorts(r, ports).value)))
    ensures Run.BindInputs(TypePorts(r, ports).value, v).Some?
    ensures EnvHasTypes(Run.BindInputs(TypePorts(r, ports).value, v).value, InputEnv(r, ports, map[]).value)
  {
    InputsDeclared(r, ports, map[]);
    var typed := TypePorts(r, ports).value;
    var none: Env := map[];
    assert none.Keys == {};
    hide HasType, InputEnv, Fresh;
    PortsMirrored(r, ports);
    if |typed| > 1 {
      ItemsAreInputs(typed, v, InputEnv(r, ports, map[]).value);
    } else {
      GainsAndGets(Run.BindInputs(typed, v).value, InputEnv(r, ports, map[]).value, typed);
    }
  }

  lemma TupleHasTypes(v: Run.Value, ts: seq<Ty>)
    requires HasType(v, Ty.Tuple(ts))
    ensures v.TupleV? && AllHaveTypes(v.items, ts)
  {}

  lemma GainsAndGets(values: Run.Env, types: Env, ports: seq<TypedPort>)
    requires Gains(map[], values, ports) && Gets(map[], types, ports)
    ensures EnvHasTypes(values, types)
  {
    hide HasType;
    forall x | x in values
      ensures x in types && HasType(values[x], types[x])
    {
      var i :| 0 <= i < |ports| && ports[i].name == x;
    }
  }

  /** Outputs are bound, and to what their declared type takes. */
  lemma {:induction false} OutputsFitIff(r: Rules, ports: seq<Port>, env: Env)
    ensures
      OutputsFit(r, ports, env)
      <==> forall i :: 0 <= i < |ports| ==>
             && ports[i].name in env && r.declared(ports[i].ty).Some?
             && Assignability.Assignable(r.declared(ports[i].ty).value, env[ports[i].name])
    decreases |ports|
  {
    hide Assignability.Assignable;
    if ports != [] {
      OutputsFitIff(r, ports[1..], env);
      assert forall i :: 1 <= i < |ports| ==> ports[i] == ports[1..][i - 1];
    }
  }

  /** The types that the outputs are bound with. */
  function OutputTypes(ports: seq<TypedPort>, env: Env): seq<Ty>
    requires forall i :: 0 <= i < |ports| ==> ports[i].name in env
  {
    seq(|ports|, i requires 0 <= i < |ports| => env[ports[i].name])
  }

  lemma {:induction false} OutputsKeepTypes(ports: seq<TypedPort>, values: Run.Env, types: Env)
    requires EnvHasTypes(values, types) && forall i :: 0 <= i < |ports| ==> ports[i].name in types
    ensures Run.Outputs(ports, values).Some?
    ensures AllHaveTypes(Run.Outputs(ports, values).value, OutputTypes(ports, types))
    decreases |ports|
  {
    hide HasType;
    if ports != [] { OutputsKeepTypes(ports[1..], values, types); }
  }

  /**
   * A callable that type-checks keeps to its types: on an argument of the type of its inputs it returns, if its
   * nodes keep to theirs and it returns anything, values of the types its outputs are bound with.
   */
  lemma CallableKeepsTypes(r: Rules, world: Run.World, names: Run.SymbolNames, c: Callable, isProgram: bool,
      v: Run.Value, fuel: nat)
    requires NodesKeepTypes(r, world, names, fuel) && TypeCallable(r, c, isProgram).Some?
    requires
      var inputs := TypeCallable(r, c, isProgram).value.0.inputs;
      inputs != [] ==> HasType(v, SingleOrTuple(PortTypes(inputs)))
    ensures
      var (typed, env) := TypeCallable(r, c, isProgram).value;
      && (forall i :: 0 <= i < |typed.outputs| ==>
            typed.outputs[i].name in env && Assignability.Assignable(typed.outputs[i].ty, env[typed.outputs[i].name]))
      && var w := Run.RunCallable(world, names, typed, v, fuel);
         w.Some? ==> HasType(w.value, SingleOrTuple(OutputTypes(typed.outputs, env)))
  {
    hide HasType, EnvHasTypes, NodesKeepTypes, InputEnv, TypePorts, TypeChains, Run.BindInputs, Run.RunChains,
         OutputsFit, Run.Outputs, Assignability.Assignable;
    var (typed, env) := TypeCallable(r, c, isProgram).value;
    var start := InputEnv(r, c.inputs, map[]).value;
    PortsMirrored(r, c.inputs);
    InputsKeepTypes(r, c.inputs, v);
    var values := Run.BindInputs(typed.inputs, v).value;
    ChainsKeepTypes(r, world, names, c.chains, start, values, fuel);
    OutputsFitIff(r, c.outputs, env);
    PortsMirrored(r, c.outputs);
    var last := Run.RunChains(world, names, typed.chains, values, fuel);
    if last.Some? {
      OutputsKeepTypes(typed.outputs, last.value, env);
      var vs := Run.Outputs(typed.outputs, last.value).value;
      OneOrAll(vs, OutputTypes(typed.outputs, env));
    }
  }

  lemma OneOrAll(vs: seq<Run.Value>, ts: seq<Ty>)
    requires AllHaveTypes(vs, ts)
    ensures HasType(if |vs| == 1 then vs[0] else Run.TupleV(vs), SingleOrTuple(ts))
  {}
}
