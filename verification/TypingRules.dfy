/** When a callable type-checks: rules for every part of a graph, and the proof that the checkers decide them. */
module TypingRules {
  import opened Ast
  import opened Types
  import opened Typed
  import opened Checking
  import opened AnnotatedGraphs
  import opened Assignability
  import opened TypeSafety

  // ---- The item type of a sequence ----

  /** A value of the first type stands for one of the second: the same, nothing yet, or one that is no fault. */
  predicate Below(t: Ty, u: Ty) { t == u || t.EmptySeq? || u == Faultable(t) }

  predicate IsBound(ts: seq<Ty>, u: Ty) { forall i :: 0 <= i < |ts| ==> Below(ts[i], u) }

  predicate IsNested(t: Ty) { t.Faultable? && t.item.Faultable? }

  lemma {:induction false} BoundsMeet(current: Ty, ts: seq<Ty>, u: Ty)
    requires Below(current, u) && IsBound(ts, u)
    ensures SequenceItems(Some(current), ts).Some? && SequenceItems(Some(current), ts).value.Seq?
    ensures Below(SequenceItems(Some(current), ts).value.item, u)
    decreases |ts|
  {
    if ts != [] {
      assert Below(ts[0], u);
      BoundsMeet(SequenceItem(current, ts[0]).value, ts[1..], u);
    }
  }

  lemma {:induction false} ItemsAreBelow(current: Ty, ts: seq<Ty>)
    requires SequenceItems(Some(current), ts).Some? && !IsNested(current)
    requires forall i :: 0 <= i < |ts| ==> !IsNested(ts[i])
    ensures
      var t := SequenceItems(Some(current), ts).value;
      t.Seq? && Below(current, t.item) && IsBound(ts, t.item) && (t.item == current || t.item in ts)
    decreases |ts|
  {
    if ts != [] {
      var next := SequenceItem(current, ts[0]).value;
      ItemsAreBelow(next, ts[1..]);
      var t := SequenceItems(Some(next), ts[1..]).value;
      assert !IsNested(t.item) by { if t.item in ts[1..] {} }
      forall i | 0 <= i < |ts|
        ensures Below(ts[i], t.item)
      {
        if i > 0 { assert ts[i] == ts[1..][i - 1]; }
      }
    }
  }

  /** The least of the types that take all items, which is the type of one of them, if there is any. */
  lemma SequenceItemsAreLeastBound(ts: seq<Ty>)
    requires ts != [] && forall i :: 0 <= i < |ts| ==> !IsNested(ts[i])
    ensures SequenceItems(None, ts).Some? <==> exists u :: IsBound(ts, u)
    ensures
      SequenceItems(None, ts).Some? ==>
        var t := SequenceItems(None, ts).value;
        t.Seq? && t.item in ts && IsBound(ts, t.item) && forall u :: IsBound(ts, u) ==> Below(t.item, u)
  {
    var rest := ts[1..];
    assert ts == [ts[0]] + rest;
    forall u | IsBound(ts, u)
      ensures SequenceItems(None, ts).Some? && SequenceItems(None, ts).value.Seq?
      ensures Below(SequenceItems(None, ts).value.item, u)
    {
      assert Below(ts[0], u);
      BoundsMeet(ts[0], rest, u);
    }
    if SequenceItems(None, ts).Some? {
      ItemsAreBelow(ts[0], rest);
      var t := SequenceItems(None, ts).value;
      assert IsBound(ts, t.item);
    }
  }

  // ---- Names bound by a target ----

  /** The types of the items of a tuple, or of a tuple that may be a fault. */
  function PartTypes(ty: Ty): Option<seq<Ty>>
  {
    match ty
    case Tuple(items) => Some(items)
    case Faultable(item) =>
      if item.Tuple? then
        Some(seq(|item.items|, i requires 0 <= i < |item.items| =>
          if item.items[i].Faultable? then item.items[i] else Faultable(item.items[i])))
      else None
    case _ => None
  }

  predicate TargetFits(t: BindingTarget, ty: Ty)
    decreases t
  {
    t.Both? ==>
      && PartTypes(ty).Some? && |PartTypes(ty).value| == |t.items|
      && forall i :: 0 <= i < |t.items| ==> TargetFits(t.items[i], PartTypes(ty).value[i])
  }

  /** The target has the name at the place where the type has the other. */
  ghost predicate BindsAt(t: BindingTarget, ty: Ty, p: TypedPort)
    decreases t
  {
    match t
    case Drop => false
    case Bound(x) => p == TypedPort(x, ty)
    case Both(items) =>
      PartTypes(ty).Some? && |PartTypes(ty).value| == |items|
      && exists i :: 0 <= i < |items| && BindsAt(items[i], PartTypes(ty).value[i], p)
  }

  lemma {:induction false} TargetTypesAre(t: BindingTarget, ty: Ty)
    ensures TargetTypes(t, ty).Some? <==> TargetFits(t, ty)
    ensures TargetTypes(t, ty).Some? ==> forall p :: p in TargetTypes(t, ty).value <==> BindsAt(t, ty, p)
    decreases t, 0
  {
    if t.Both? {
      var n := |t.items|;
      if ty.Tuple? && |ty.items| == n {
        TargetListTypesAre(t.items, ty.items);
      } else if ty.Faultable? && ty.item.Tuple? && |ty.item.items| == n {
        var tys := seq(n, i requires 0 <= i < n => Projection(ty.item.items[i]));
        assert PartTypes(ty).value == tys;
        TargetListTypesAre(t.items, tys);
      }
    }
  }

  lemma {:induction false} TargetListTypesAre(ts: seq<BindingTarget>, tys: seq<Ty>)
    requires |ts| == |tys|
    ensures TargetListTypes(ts, tys).Some? <==> forall i :: 0 <= i < |ts| ==> TargetFits(ts[i], tys[i])
    ensures
      TargetListTypes(ts, tys).Some? ==>
        forall p :: p in TargetListTypes(ts, tys).value <==> exists i :: 0 <= i < |ts| && BindsAt(ts[i], tys[i], p)
    decreases ts, 0
  {
    hide TargetTypes, TargetFits, BindsAt;
    if ts != [] {
      TargetTypesAre(ts[0], tys[0]);
      TargetListTypesAre(ts[1..], tys[1..]);
      assert forall i :: 1 <= i < |ts| ==> ts[i] == ts[1..][i - 1] && tys[i] == tys[1..][i - 1];
      assert forall i :: 0 <= i < |ts| - 1 ==> ts[1..][i] == ts[i + 1] && tys[1..][i] == tys[i + 1];
    }
  }

  function BoundNames(t: BindingTarget): seq<string>
    decreases t, 0
  {
    match t
    case Drop => []
    case Bound(x) => [x]
    case Both(items) => AllBoundNames(items)
  }

  function AllBoundNames(ts: seq<BindingTarget>): seq<string>
    decreases ts, 0
  {
    if ts == [] then [] else BoundNames(ts[0]) + AllBoundNames(ts[1..])
  }

  predicate AreNew(xs: seq<string>, env: Env)
  {
    && (forall i :: 0 <= i < |xs| ==> xs[i] !in env)
    && (forall i, j :: 0 <= i < j < |xs| ==> xs[i] != xs[j])
  }

  /** The names are new, and get the types, which are known, at their places. */
  ghost predicate Binds(t: BindingTarget, ty: Ty, env: Env, next: Env)
  {
    && TargetFits(t, ty) && AreNew(BoundNames(t), env)
    && (forall x :: x in next <==> x in env || x in BoundNames(t))
    && (forall x :: x in env ==> x in next && next[x] == env[x])
    && (forall p :: BindsAt(t, ty, p) ==> p.name in next && next[p.name] == p.ty && !HasEmptySeq(p.ty))
  }

  predicate NamesAre(ports: seq<TypedPort>, xs: seq<string>)
  {
    |ports| == |xs| && forall i :: 0 <= i < |xs| ==> ports[i].name == xs[i]
  }

  lemma {:induction false} TargetNamesAre(t: BindingTarget, ty: Ty)
    requires TargetTypes(t, ty).Some?
    ensures NamesAre(TargetTypes(t, ty).value, BoundNames(t))
    decreases t, 0
  {
    if t.Both? {
      var n := |t.items|;
      if ty.Tuple? {
        TargetListNamesAre(t.items, ty.items);
      } else {
        TargetListNamesAre(t.items, seq(n, i requires 0 <= i < n => Projection(ty.item.items[i])));
      }
    }
  }

  lemma {:induction false} TargetListNamesAre(ts: seq<BindingTarget>, tys: seq<Ty>)
    requires |ts| == |tys| && TargetListTypes(ts, tys).Some?
    ensures NamesAre(TargetListTypes(ts, tys).value, AllBoundNames(ts))
    decreases ts, 0
  {
    hide TargetTypes, BoundNames;
    if ts != [] {
      TargetNamesAre(ts[0], tys[0]);
      TargetListNamesAre(ts[1..], tys[1..]);
    }
  }

  lemma NewAreFresh(ports: seq<TypedPort>, xs: seq<string>, env: Env)
    requires NamesAre(ports, xs)
    ensures Fresh(ports, env.Keys) <==> AreNew(xs, env)
    ensures forall x :: Names(ports, x) <==> x in xs
  {
    forall x | x in xs
      ensures Names(ports, x)
    {
      var i :| 0 <= i < |xs| && xs[i] == x;
      assert ports[i].name == x;
    }
    if Fresh(ports, env.Keys) { assert forall i :: 0 <= i < |xs| ==> xs[i] == ports[i].name; }
  }

  /** Ports with the names, and at the places, of a target. */
  ghost predicate PortsAre(t: BindingTarget, ty: Ty, ports: seq<TypedPort>)
  {
    (forall p :: p in ports <==> BindsAt(t, ty, p)) && forall x :: Names(ports, x) <==> x in BoundNames(t)
  }

  lemma BoundAreBinds(t: BindingTarget, ty: Ty, env: Env, next: Env, ports: seq<TypedPort>)
    requires PortsAre(t, ty, ports) && TargetFits(t, ty) && AreNew(BoundNames(t), env) && Gets(env, next, ports)
    requires forall i :: 0 <= i < |ports| ==> !HasEmptySeq(ports[i].ty)
    ensures Binds(t, ty, env, next)
  {
    hide TargetFits, HasEmptySeq, BindsAt, BoundNames, AreNew, Names;
    forall p | BindsAt(t, ty, p)
      ensures p.name in next && next[p.name] == p.ty && !HasEmptySeq(p.ty)
    {
      var i :| 0 <= i < |ports| && ports[i] == p;
    }
  }

  lemma BindsAreBound(t: BindingTarget, ty: Ty, env: Env, next: Env, ports: seq<TypedPort>)
    requires PortsAre(t, ty, ports) && Binds(t, ty, env, next)
    ensures Gets(env, next, ports) && forall i :: 0 <= i < |ports| ==> !HasEmptySeq(ports[i].ty)
  {
    hide TargetFits, HasEmptySeq, BindsAt, BoundNames, AreNew, Names;
    assert forall i :: 0 <= i < |ports| ==> BindsAt(t, ty, ports[i]);
  }

  lemma GetsOnce(env: Env, next: Env, other: Env, ports: seq<TypedPort>)
    requires Gets(env, next, ports) && Gets(env, other, ports)
    ensures next == other
  {
    forall x | x in next
      ensures x in other && next[x] == other[x]
    {
      if x !in env { var i :| 0 <= i < |ports| && ports[i].name == x; }
    }
  }

  lemma BindsDecided(t: BindingTarget, ty: Ty, env: Env, next: Env)
    ensures Binds(t, ty, env, next) <==> TargetTypes(t, ty).Some? && BindAll(TargetTypes(t, ty).value, env) == Some(next)
  {
    TargetTypesAre(t, ty);
    if TargetTypes(t, ty).Some? {
      var ports := TargetTypes(t, ty).value;
      TargetNamesAre(t, ty);
      NewAreFresh(ports, BoundNames(t), env);
      PortsBound(ports, env);
      hide TargetTypes, TargetFits, BindAll, HasEmptySeq, BindsAt, BoundNames, Fresh, AreNew, NamesAre, Names, Gets;
      assert PortsAre(t, ty, ports);
      if Binds(t, ty, env, next) {
        BindsAreBound(t, ty, env, next, ports);
        GetsOnce(env, next, BindAll(ports, env).value, ports);
      }
      if BindAll(ports, env) == Some(next) { BoundAreBinds(t, ty, env, next, ports); }
    }
  }

  // ---- Rules for endpoints and stages ----

  /** The first field of the name has the type. */
  predicate HasField(fields: seq<TyField>, name: string, t: Ty)
  {
    exists j :: 0 <= j < |fields| && fields[j].name == name && fields[j].ty == t && NotBefore(fields, name, j)
  }

  predicate NotBefore(fields: seq<TyField>, name: string, j: nat)
    requires j <= |fields|
  {
    forall k :: 0 <= k < j ==> fields[k].name != name
  }

  /** The endpoint has the type. */
  ghost predicate Is(r: Rules, e: Endpoint, env: Env, t: Ty)
    decreases e, 0
  {
    match e
    case Variable(x) => x in env && env[x] == t
    case Name(_) => false
    case Int(_) => t == I64
    case Real(_) => t == F64
    case RealF32(_) => t == F32
    case Bool(_) => t == Ty.Bool
    case Str(_) => t == Bytes
    case Unit => t == Ty.Unit
    case Tuple(items) => t.Tuple? && AllAre(r, items, env, t.items)
    case Seq(items) => exists ts :: AllAre(r, items, env, ts) && SequenceItems(None, ts) == Some(t)
    case Struct(name, fields) =>
      && name in r.structs && r.structs[name] == t && t.Struct? && |fields| == |t.fields|
      && (forall i, j :: 0 <= i < j < |fields| ==> fields[i].name != fields[j].name)
      && forall i :: 0 <= i < |fields| ==> FieldIs(r, t.fields, fields[i], env)
    case Eval(source, stages) =>
      exists ts: seq<Ty> ::
        |ts| == |stages| + 1 && Is(r, source, env, ts[0]) && Flows(r, true, stages, env, ts) && ts[|stages|] == t
  }

  ghost predicate FieldIs(r: Rules, expected: seq<TyField>, field: Field, env: Env)
    decreases field, 0
  {
    exists u, t :: HasField(expected, field.name, u) && Is(r, field.value, env, t) && Assignable(u, t)
  }

  ghost predicate AllAre(r: Rules, items: seq<Endpoint>, env: Env, ts: seq<Ty>)
    decreases items, 0
  {
    |ts| == |items| && forall i :: 0 <= i < |items| ==> Is(r, items[i], env, ts[i])
  }

  /** A value flows through the stages, of one type after the other. */
  ghost predicate Flows(r: Rules, inline: bool, stages: seq<Stage>, env: Env, ts: seq<Ty>)
    decreases stages, 0
  {
    |ts| == |stages| + 1 && forall i :: 0 <= i < |stages| ==> Passes(r, inline, stages[i], env, ts[i], ts[i + 1])
  }

  /** The stage takes the one type and hands on the other. */
  ghost predicate Passes(r: Rules, inline: bool, s: Stage, env: Env, t: Ty, u: Ty)
    decreases s, 0
  {
    match s
    case Value(e) => e.Name? && r.node(inline, e.node, t) == Some(u)
    case Bind(_) => false
    case FaultMap(_, _, _) => false
    case Map(n) => r.mapped(inline, n, t) == Some(u)
    case Filter(n) => r.filtered(inline, n, t) == Some(u)
    case FieldOf(f) => t.Struct? && HasField(t.fields, f, u)
    case Repeat(count, n) => (exists c :: Is(r, count, env, c) && Expects(c, I64)) && r.repeated(inline, n, t) == Some(u)
    case Reduce(n, identity) => exists i :: Is(r, identity, env, i) && r.reduced(inline, n, t, i) == Some(u)
    case Scan(n, identity) => exists i :: Is(r, identity, env, i) && r.scanned(inline, n, t, i) == Some(u)
    case Match(arms) =>
      && arms != [] && (forall i :: 0 <= i < |arms| ==> (arms[i].guard.Fallback? <==> i == |arms| - 1))
      && exists us :: ArmsGive(r, inline, arms, env, t, us) && JoinTo(us, u)
  }

  /** The type of the arms, from the top. */
  predicate JoinTo(us: seq<Ty>, u: Ty) { us != [] && FoldArms(us[0], us[1..]) == Some(u) }

  ghost predicate ArmsGive(r: Rules, inline: bool, arms: seq<MatchArm>, env: Env, t: Ty, us: seq<Ty>)
    decreases arms, 0
  {
    |us| == |arms| && forall i :: 0 <= i < |arms| ==> ArmGives(r, inline, arms[i], env, t, us[i])
  }

  ghost predicate ArmGives(r: Rules, inline: bool, arm: MatchArm, env: Env, t: Ty, u: Ty)
    decreases arm, 0
  {
    && Asks(r, inline, arm.guard, env, t)
    && match arm.target
       case ToNode(n) => r.node(inline, n, t) == Some(u)
       case ToValue(e) => Is(r, e, env, u)
  }

  /** A guard answers, for the value and its other arguments, with a truth value. */
  ghost predicate Asks(r: Rules, inline: bool, g: MatchGuard, env: Env, t: Ty)
    decreases g, 0
  {
    match g
    case Fallback => true
    case Call(n, args) =>
      && r.isGuard(n)
      && exists ts, out ::
           && AllAre(r, args, env, ts) && Expects(out, Ty.Bool)
           && r.node(inline, n, if ts == [] then t else Ty.Tuple([t] + ts)) == Some(out)
  }

  // ---- The checker decides the rules ----

  lemma {:induction false} FieldTypeIs(fields: seq<TyField>, name: string)
    ensures forall t :: FieldType(fields, name) == Some(t) <==> HasField(fields, name, t)
  {
    if fields != [] && fields[0].name != name {
      FieldTypeIs(fields[1..], name);
      forall t | HasField(fields[1..], name, t)
        ensures HasField(fields, name, t)
      {
        var j :| 0 <= j < |fields| - 1 && fields[1..][j].name == name && fields[1..][j].ty == t
                 && NotBefore(fields[1..], name, j);
        assert forall k :: 1 <= k < j + 1 ==> fields[k] == fields[1..][k - 1];
        assert fields[j + 1].name == name && NotBefore(fields, name, j + 1);
      }
      forall t | HasField(fields, name, t)
        ensures HasField(fields[1..], name, t)
      {
        var j :| 0 <= j < |fields| && fields[j].name == name && fields[j].ty == t && NotBefore(fields, name, j);
        assert fields[1..][j - 1].name == name && NotBefore(fields[1..], name, j - 1);
      }
    } else if fields != [] {
      assert NotBefore(fields, name, 0);
      forall t | HasField(fields, name, t)
        ensures t == fields[0].ty
      {
        var j :| 0 <= j < |fields| && fields[j].name == name && fields[j].ty == t && NotBefore(fields, name, j);
      }
    }
  }

  lemma {:induction false} EndpointDecided(r: Rules, e: Endpoint, env: Env)
    ensures forall t :: Is(r, e, env, t) <==> EndpointType(r, e, env) == Some(t)
    decreases e, 1
  {
    hide ItemTypes, InlineType, FieldsFit, AllAre, Flows, FieldIs, SequenceItems;
    match e
    case Tuple(items) => ItemsDecided(r, items, env);
    case Seq(items) => ItemsDecided(r, items, env);
    case Struct(name, fields) =>
      if name in r.structs && r.structs[name].Struct? { FieldsDecided(r, r.structs[name].fields, fields, {}, env); }
    case Eval(source, stages) =>
      EndpointDecided(r, source, env);
      var t := EndpointType(r, source, env);
      if t.Some? { InlineDecided(r, stages, t.value, env); }
    case _ =>
  }

  lemma {:induction false} ItemsDecided(r: Rules, items: seq<Endpoint>, env: Env)
    ensures forall ts :: AllAre(r, items, env, ts) <==> ItemTypes(r, items, env) == Some(ts)
    decreases items, 1
  {
    hide Is, EndpointType;
    if items != [] {
      EndpointDecided(r, items[0], env);
      ItemsDecided(r, items[1..], env);
      forall ts
        ensures AllAre(r, items, env, ts)
                <==> ts != [] && Is(r, items[0], env, ts[0]) && AllAre(r, items[1..], env, ts[1..])
      {
        if ts != [] && Is(r, items[0], env, ts[0]) && AllAre(r, items[1..], env, ts[1..]) {
          assert forall i :: 1 <= i < |items| ==> items[i] == items[1..][i - 1] && ts[i] == ts[1..][i - 1];
        }
      }
      forall ts | ItemTypes(r, items, env) == Some(ts)
        ensures AllAre(r, items, env, ts)
      {
        assert ts[1..] == ItemTypes(r, items[1..], env).value;
      }
      forall ts | AllAre(r, items, env, ts)
        ensures ItemTypes(r, items, env) == Some(ts)
      {
        assert ts == [ts[0]] + ts[1..];
      }
    }
  }

  /** The fields fit, and have names of their own. */
  ghost predicate FieldsAre(r: Rules, expected: seq<TyField>, fields: seq<Field>, seen: set<string>, env: Env)
  {
    && (forall i :: 0 <= i < |fields| ==> FieldIs(r, expected, fields[i], env))
    && (forall i :: 0 <= i < |fields| ==> fields[i].name !in seen)
    && (forall i, j :: 0 <= i < j < |fields| ==> fields[i].name != fields[j].name)
  }

  lemma FieldsStep(r: Rules, expected: seq<TyField>, fields: seq<Field>, seen: set<string>, env: Env)
    requires fields != []
    ensures
      FieldsAre(r, expected, fields, seen, env)
      <==> && FieldIs(r, expected, fields[0], env) && fields[0].name !in seen
           && FieldsAre(r, expected, fields[1..], seen + {fields[0].name}, env)
  {
    hide FieldIs;
    var rest := fields[1..];
    assert forall i :: 0 <= i < |rest| ==> rest[i] == fields[i + 1];
    assert forall i :: 1 <= i < |fields| ==> fields[i] == rest[i - 1];
  }

  lemma {:induction false} FieldsDecided(r: Rules, expected: seq<TyField>, fields: seq<Field>, seen: set<string>,
      env: Env)
    ensures FieldsFit(r, expected, fields, seen, env) <==> FieldsAre(r, expected, fields, seen, env)
    decreases fields, 1
  {
    if fields != [] {
      hide Is, EndpointType, FieldType, HasField, Assignable, FieldsAre;
      FieldsStep(r, expected, fields, seen, env);
      EndpointDecided(r, fields[0].value, env);
      FieldTypeIs(expected, fields[0].name);
      FieldsDecided(r, expected, fields[1..], seen + {fields[0].name}, env);
    }
  }

  lemma FlowsStep(r: Rules, inline: bool, stages: seq<Stage>, env: Env, ts: seq<Ty>)
    requires stages != [] && |ts| == |stages| + 1
    ensures
      Flows(r, inline, stages, env, ts)
      <==> Passes(r, inline, stages[0], env, ts[0], ts[1]) && Flows(r, inline, stages[1..], env, ts[1..])
  {
    hide Passes;
    var rest, us := stages[1..], ts[1..];
    if Flows(r, inline, stages, env, ts) {
      forall i | 0 <= i < |rest|
        ensures Passes(r, inline, rest[i], env, us[i], us[i + 1])
      {
        assert rest[i] == stages[i + 1] && us[i] == ts[i + 1] && us[i + 1] == ts[i + 2];
      }
    }
    if Passes(r, inline, stages[0], env, ts[0], ts[1]) && Flows(r, inline, rest, env, us) {
      forall i | 0 <= i < |stages|
        ensures Passes(r, inline, stages[i], env, ts[i], ts[i + 1])
      {
        if i > 0 { assert stages[i] == rest[i - 1] && ts[i] == us[i - 1] && ts[i + 1] == us[i]; }
      }
    }
  }

  lemma NoStages(r: Rules, inline: bool, env: Env, t: Ty)
    ensures Flows(r, inline, [], env, [t])
  {}

  lemma {:induction false} InlineDecided(r: Rules, stages: seq<Stage>, t: Ty, env: Env)
    ensures
      forall u ::
        InlineType(r, stages, t, env) == Some(u)
        <==> exists ts: seq<Ty> ::
               |ts| == |stages| + 1 && ts[0] == t && Flows(r, true, stages, env, ts) && ts[|stages|] == u
    decreases stages, 1
  {
    hide StageType, Passes, Flows;
    if stages == [] {
      NoStages(r, true, env, t);
      return;
    }
    StageDecided(r, true, stages[0], t, env);
    var next := StageType(r, true, stages[0], t, env);
    if next.Some? { InlineDecided(r, stages[1..], next.value, env); }
    forall u | InlineType(r, stages, t, env) == Some(u)
      ensures
        exists ts: seq<Ty> ::
          |ts| == |stages| + 1 && ts[0] == t && Flows(r, true, stages, env, ts) && ts[|stages|] == u
    {
      var rest: seq<Ty> :|
        |rest| == |stages| && rest[0] == next.value && Flows(r, true, stages[1..], env, rest) && rest[|stages| - 1] == u;
      var ts := [t] + rest;
      assert ts[1..] == rest;
      FlowsStep(r, true, stages, env, ts);
    }
    forall ts: seq<Ty> | |ts| == |stages| + 1 && Flows(r, true, stages, env, ts) && ts[0] == t
      ensures InlineType(r, stages, t, env) == Some(ts[|stages|])
    {
      FlowsStep(r, true, stages, env, ts);
      assert ts[1..][|stages| - 1] == ts[|stages|];
    }
  }

  lemma {:induction false} StageDecided(r: Rules, inline: bool, s: Stage, t: Ty, env: Env)
    ensures forall u :: Passes(r, inline, s, env, t, u) <==> StageType(r, inline, s, t, env) == Some(u)
    decreases s, 1
  {
    hide Is, EndpointType, Expects, ArmsGive, ArmsType, JoinTo;
    match s
    case Repeat(count, _) => EndpointDecided(r, count, env);
    case Reduce(_, identity) => EndpointDecided(r, identity, env);
    case Scan(_, identity) => EndpointDecided(r, identity, env);
    case Match(arms) => if arms != [] { MatchDecided(r, inline, arms, t, env); }
    case _ =>
      hide Passes, StageType;
      PlainStageDecided(r, inline, s, t, env);
  }

  /** Stages with no operands and no arms. */
  lemma PlainStageDecided(r: Rules, inline: bool, s: Stage, t: Ty, env: Env)
    requires !s.Repeat? && !s.Reduce? && !s.Scan? && !s.Match?
    ensures forall u :: Passes(r, inline, s, env, t, u) <==> StageType(r, inline, s, t, env) == Some(u)
  {
    hide FieldType, HasField;
    if s.FieldOf? && t.Struct? { FieldTypeIs(t.fields, s.field); }
  }

  /** Only the last arm may be the fallback. */
  predicate LastFallback(arms: seq<MatchArm>) { forall i :: 0 <= i < |arms| - 1 ==> !arms[i].guard.Fallback? }

  /** The types that the arms give, if every guard fits. */
  function ArmTypes(r: Rules, inline: bool, arms: seq<MatchArm>, t: Ty, env: Env): Option<seq<Ty>>
    decreases |arms|
  {
    if arms == [] then Some([]) else
      var first :- ArmType(r, inline, arms[0], t, env);
      var rest :- ArmTypes(r, inline, arms[1..], t, env);
      Some([first] + rest)
  }

  lemma ArmsLater(r: Rules, inline: bool, arms: seq<MatchArm>, env: Env, t: Ty, us: seq<Ty>)
    requires ArmsGive(r, inline, arms, env, t, us) && arms != []
    ensures ArmGives(r, inline, arms[0], env, t, us[0]) && ArmsGive(r, inline, arms[1..], env, t, us[1..])
  {
    hide ArmGives;
    var rest, vs := arms[1..], us[1..];
    forall i | 0 <= i < |rest|
      ensures ArmGives(r, inline, rest[i], env, t, vs[i])
    {
      assert rest[i] == arms[i + 1] && vs[i] == us[i + 1];
    }
  }

  lemma ArmsBefore(r: Rules, inline: bool, arms: seq<MatchArm>, env: Env, t: Ty, u: Ty, us: seq<Ty>)
    requires arms != [] && ArmGives(r, inline, arms[0], env, t, u) && ArmsGive(r, inline, arms[1..], env, t, us)
    ensures ArmsGive(r, inline, arms, env, t, [u] + us)
  {
    hide ArmGives;
    var rest, vs := arms[1..], [u] + us;
    forall i | 0 <= i < |arms|
      ensures ArmGives(r, inline, arms[i], env, t, vs[i])
    {
      if i > 0 { assert arms[i] == rest[i - 1] && vs[i] == us[i - 1]; }
    }
  }

  lemma GivesLength(r: Rules, inline: bool, arms: seq<MatchArm>, env: Env, t: Ty, us: seq<Ty>)
    requires ArmsGive(r, inline, arms, env, t, us)
    ensures |us| == |arms|
  {}

  lemma NoArms(r: Rules, inline: bool, t: Ty, env: Env, us: seq<Ty>)
    ensures ArmsGive(r, inline, [], env, t, us) <==> us == []
    ensures ArmTypes(r, inline, [], t, env) == Some([])
  {}

  lemma {:induction false} ArmTypesDecided(r: Rules, inline: bool, arms: seq<MatchArm>, t: Ty, env: Env, us: seq<Ty>)
    ensures ArmsGive(r, inline, arms, env, t, us) <==> ArmTypes(r, inline, arms, t, env) == Some(us)
    decreases arms, 1
  {
    hide ArmType, ArmGives, ArmsGive, ArmTypes;
    if arms == [] {
      NoArms(r, inline, t, env, us);
      return;
    }
    ArmTypesUnfold(r, inline, arms, t, env);
    ArmDecided(r, inline, arms[0], t, env);
    var out, rest := ArmType(r, inline, arms[0], t, env), ArmTypes(r, inline, arms[1..], t, env);
    if ArmsGive(r, inline, arms, env, t, us) {
      GivesLength(r, inline, arms, env, t, us);
      ArmsLater(r, inline, arms, env, t, us);
      ArmTypesDecided(r, inline, arms[1..], t, env, us[1..]);
      assert us == [us[0]] + us[1..];
    }
    if out.Some? && rest.Some? && us == [out.value] + rest.value {
      ArmTypesDecided(r, inline, arms[1..], t, env, rest.value);
      ArmsBefore(r, inline, arms, env, t, out.value, rest.value);
    }
  }

  lemma FoldStep(current: Ty, u: Ty, us: seq<Ty>)
    ensures
      var next := CommonType(current, u);
      FoldArms(current, [u] + us) == if next.None? then None else FoldArms(next.value, us)
  {
    hide CommonType;
    assert ([u] + us)[1..] == us;
  }

  lemma ArmsUnfold(r: Rules, inline: bool, arms: seq<MatchArm>, t: Ty, env: Env, current: Ty)
    requires arms != []
    ensures
      var out := ArmType(r, inline, arms[0], t, env);
      var next := if out.Some? then CommonType(current, out.value) else None;
      ArmsType(r, inline, Some(current), arms, t, env)
      == if (arms[0].guard.Fallback? && |arms| > 1) || next.None? then None
         else ArmsType(r, inline, Some(next.value), arms[1..], t, env)
  {
    hide ArmType, CommonType;
  }

  lemma {:induction false} ArmsFold(r: Rules, inline: bool, arms: seq<MatchArm>, t: Ty, env: Env, current: Ty)
    ensures
      var us := ArmTypes(r, inline, arms, t, env);
      ArmsType(r, inline, Some(current), arms, t, env)
      == if LastFallback(arms) && us.Some? then FoldArms(current, us.value) else None
    decreases |arms|
  {
    if arms == [] {
      return;
    }
    hide ArmType, CommonType, LastFallback, ArmsType, FoldArms;
    FallbackStep(arms);
    ArmsUnfold(r, inline, arms, t, env, current);
    var out := ArmType(r, inline, arms[0], t, env);
    if out.Some? {
      var next, rest := CommonType(current, out.value), ArmTypes(r, inline, arms[1..], t, env);
      if next.Some? { ArmsFold(r, inline, arms[1..], t, env, next.value); }
      if rest.Some? { FoldStep(current, out.value, rest.value); }
    }
  }

  lemma FallbackStep(arms: seq<MatchArm>)
    requires arms != []
    ensures LastFallback(arms) <==> (arms[0].guard.Fallback? ==> |arms| == 1) && LastFallback(arms[1..])
  {
    assert forall i :: 1 <= i < |arms| ==> arms[i] == arms[1..][i - 1];
  }

  lemma FallbacksAre(arms: seq<MatchArm>)
    requires arms != []
    ensures
      arms[|arms| - 1].guard.Fallback? && LastFallback(arms)
      <==> forall i :: 0 <= i < |arms| ==> (arms[i].guard.Fallback? <==> i == |arms| - 1)
  {}

  lemma ArmTypesUnfold(r: Rules, inline: bool, arms: seq<MatchArm>, t: Ty, env: Env)
    requires arms != []
    ensures
      var out, rest := ArmType(r, inline, arms[0], t, env), ArmTypes(r, inline, arms[1..], t, env);
      ArmTypes(r, inline, arms, t, env) == if out.None? || rest.None? then None else Some([out.value] + rest.value)
  {
    hide ArmType;
  }

  lemma FirstArm(r: Rules, inline: bool, arms: seq<MatchArm>, t: Ty, env: Env)
    requires arms != []
    ensures
      var out := ArmType(r, inline, arms[0], t, env);
      ArmsType(r, inline, None, arms, t, env)
      == if (arms[0].guard.Fallback? && |arms| > 1) || out.None? then None
         else ArmsType(r, inline, Some(out.value), arms[1..], t, env)
  {
    hide ArmType, CommonType;
  }

  lemma MatchFold(r: Rules, inline: bool, arms: seq<MatchArm>, t: Ty, env: Env)
    requires arms != []
    ensures
      var us := ArmTypes(r, inline, arms, t, env);
      && (us.Some? ==> us.value != [])
      && ArmsType(r, inline, None, arms, t, env)
         == if LastFallback(arms) && us.Some? then FoldArms(us.value[0], us.value[1..]) else None
  {
    FallbackStep(arms);
    ArmTypesUnfold(r, inline, arms, t, env);
    FirstArm(r, inline, arms, t, env);
    hide ArmType, ArmTypes, ArmsType, FoldArms, LastFallback;
    var out := ArmType(r, inline, arms[0], t, env);
    if out.Some? {
      ArmsFold(r, inline, arms[1..], t, env, out.value);
      var rest := ArmTypes(r, inline, arms[1..], t, env);
      if rest.Some? { assert ([out.value] + rest.value)[1..] == rest.value; }
    }
  }

  lemma {:induction false} MatchDecided(r: Rules, inline: bool, arms: seq<MatchArm>, t: Ty, env: Env)
    requires arms != []
    ensures
      forall u ::
        arms[|arms| - 1].guard.Fallback? && ArmsType(r, inline, None, arms, t, env) == Some(u)
        <==> && (forall i :: 0 <= i < |arms| ==> (arms[i].guard.Fallback? <==> i == |arms| - 1))
             && exists us :: ArmsGive(r, inline, arms, env, t, us) && JoinTo(us, u)
    decreases arms, 2
  {
    forall us {
      ArmTypesDecided(r, inline, arms, t, env, us);
    }
    FallbacksAre(arms);
    MatchFold(r, inline, arms, t, env);
    hide ArmTypes, ArmsType, ArmsGive, FoldArms, LastFallback;
    var us := ArmTypes(r, inline, arms, t, env);
    if us.Some? { assert ArmsGive(r, inline, arms, env, t, us.value); }
  }

  lemma {:induction false} ArmDecided(r: Rules, inline: bool, arm: MatchArm, t: Ty, env: Env)
    ensures forall u :: ArmGives(r, inline, arm, env, t, u) <==> ArmType(r, inline, arm, t, env) == Some(u)
    decreases arm, 1
  {
    hide Is, EndpointType, Asks, GuardFits;
    GuardDecided(r, inline, arm.guard, t, env);
    if arm.target.ToValue? { EndpointDecided(r, arm.target.endpoint, env); }
  }

  lemma {:induction false} GuardDecided(r: Rules, inline: bool, g: MatchGuard, t: Ty, env: Env)
    ensures Asks(r, inline, g, env, t) <==> GuardFits(r, inline, g, t, env)
    decreases g, 1
  {
    if g.Call? {
      hide AllAre, ItemTypes, Expects;
      ItemsDecided(r, g.args, env);
      var ts := ItemTypes(r, g.args, env);
      if ts.Some? && ts.value == [] { assert [t] + ts.value == [t]; }
    }
  }

  // ---- Rules for chains and callables ----

  predicate EndsInNames(stages: seq<Stage>)
  {
    stages != [] && (stages[|stages| - 1].Bind? || stages[|stages| - 1].FaultMap?)
  }

  /** The stages before one that binds. */
  function Front(stages: seq<Stage>): seq<Stage> { if EndsInNames(stages) then stages[..|stages| - 1] else stages }

  /** What the end of a chain adds to the names, given the type that flows there. */
  ghost predicate Ends(r: Rules, stages: seq<Stage>, t: Ty, env: Env, next: Env)
  {
    if !EndsInNames(stages) then next == env
    else
      match stages[|stages| - 1]
      case Bind(target) => Binds(target, t, env, next)
      case FaultMap(n, ok, fault) =>
        && r.faultMapped(n, t).Some? && ok !in env && fault !in env && ok != fault
        && next == env[ok := r.faultMapped(n, t).value.0][fault := r.faultMapped(n, t).value.1]
      case _ => false
  }

  ghost predicate StagesGive(r: Rules, stages: seq<Stage>, t: Ty, env: Env, next: Env)
  {
    exists ts: seq<Ty> ::
      && |ts| == |Front(stages)| + 1 && ts[0] == t && Flows(r, false, Front(stages), env, ts)
      && Ends(r, stages, ts[|ts| - 1], env, next)
  }

  ghost predicate ChainGives(r: Rules, chain: Chain, env: Env, next: Env)
  {
    exists t :: Is(r, chain.source, env, t) && StagesGive(r, chain.stages, t, env, next)
  }

  /** Each chain has the names of those before. */
  ghost predicate ChainsGive(r: Rules, chains: seq<Chain>, envs: seq<Env>)
  {
    |envs| == |chains| + 1 && forall i :: 0 <= i < |chains| ==> ChainGives(r, chains[i], envs[i], envs[i + 1])
  }

  lemma LastDecided(r: Rules, stages: seq<Stage>, t: Ty, env: Env, next: Env)
    requires |stages| == 1 && EndsInNames(stages)
    ensures CheckStages(r, stages, t, env) == Some(next) <==> StagesGive(r, stages, t, env, next)
  {
    hide TargetTypes, BindAll, Binds;
    assert Front(stages) == [];
    NoStages(r, false, env, t);
    assert [t][|[t]| - 1] == t;
    if stages[0].Bind? { BindsDecided(stages[0].target, t, env, next); }
  }

  lemma FrontStep(r: Rules, stages: seq<Stage>, env: Env, next: Env)
    requires stages != [] && !(|stages| == 1 && EndsInNames(stages))
    ensures Front(stages) != [] && Front(stages[1..]) == Front(stages)[1..] && Front(stages)[0] == stages[0]
    ensures forall v :: Ends(r, stages, v, env, next) <==> Ends(r, stages[1..], v, env, next)
  {
    hide Binds;
  }

  lemma GiveLater(r: Rules, stages: seq<Stage>, t: Ty, env: Env, next: Env)
    requires stages != [] && !(|stages| == 1 && EndsInNames(stages)) && StagesGive(r, stages, t, env, next)
    ensures exists u :: Passes(r, false, stages[0], env, t, u) && StagesGive(r, stages[1..], u, env, next)
  {
    FrontStep(r, stages, env, next);
    hide Passes, Flows, Front, Ends, EndsInNames;
    var ts: seq<Ty> :|
      && |ts| == |Front(stages)| + 1 && ts[0] == t && Flows(r, false, Front(stages), env, ts)
      && Ends(r, stages, ts[|ts| - 1], env, next);
    FlowsStep(r, false, Front(stages), env, ts);
    assert ts[1..][|ts| - 2] == ts[|ts| - 1];
    assert StagesGive(r, stages[1..], ts[1], env, next);
  }

  lemma GiveBefore(r: Rules, stages: seq<Stage>, t: Ty, u: Ty, env: Env, next: Env)
    requires stages != [] && !(|stages| == 1 && EndsInNames(stages))
    requires Passes(r, false, stages[0], env, t, u) && StagesGive(r, stages[1..], u, env, next)
    ensures StagesGive(r, stages, t, env, next)
  {
    FrontStep(r, stages, env, next);
    hide Passes, Flows, Front, Ends, EndsInNames;
    var rest := stages[1..];
    var us: seq<Ty> :|
      && |us| == |Front(rest)| + 1 && us[0] == u && Flows(r, false, Front(rest), env, us)
      && Ends(r, rest, us[|us| - 1], env, next);
    var ts := [t] + us;
    assert ts[1..] == us;
    FlowsStep(r, false, Front(stages), env, ts);
    assert ts[|ts| - 1] == us[|us| - 1];
  }

  lemma {:induction false} StagesDecided(r: Rules, stages: seq<Stage>, t: Ty, env: Env, next: Env)
    ensures CheckStages(r, stages, t, env) == Some(next) <==> StagesGive(r, stages, t, env, next)
    decreases |stages|
  {
    hide StagesGive, StageType, Passes, EndsInNames;
    if stages == [] {
      NoStagesGive(r, t, env, next);
    } else if |stages| == 1 && EndsInNames(stages) {
      LastDecided(r, stages, t, env, next);
    } else {
      StageDecided(r, false, stages[0], t, env);
      CheckStep(r, stages, t, env);
      hide CheckStages;
      var u := StageType(r, false, stages[0], t, env);
      if u.Some? {
        StagesDecided(r, stages[1..], u.value, env, next);
        if StagesGive(r, stages[1..], u.value, env, next) { GiveBefore(r, stages, t, u.value, env, next); }
      }
      if StagesGive(r, stages, t, env, next) { GiveLater(r, stages, t, env, next); }
    }
  }

  lemma CheckStep(r: Rules, stages: seq<Stage>, t: Ty, env: Env)
    requires stages != [] && !(|stages| == 1 && EndsInNames(stages))
    ensures
      var u := StageType(r, false, stages[0], t, env);
      CheckStages(r, stages, t, env) == if u.None? then None else CheckStages(r, stages[1..], u.value, env)
  {
    hide StageType;
  }

  lemma NoStagesGive(r: Rules, t: Ty, env: Env, next: Env)
    ensures StagesGive(r, [], t, env, next) <==> next == env
    ensures CheckStages(r, [], t, env) == Some(env)
  {
    NoStages(r, false, env, t);
    assert [t][|[t]| - 1] == t;
  }

  lemma ChainDecided(r: Rules, chain: Chain, env: Env, next: Env)
    ensures
      ChainGives(r, chain, env, next)
      <==> EndpointType(r, chain.source, env).Some?
           && CheckStages(r, chain.stages, EndpointType(r, chain.source, env).value, env) == Some(next)
  {
    hide Is, EndpointType, StagesGive, CheckStages;
    EndpointDecided(r, chain.source, env);
    var t := EndpointType(r, chain.source, env);
    if t.Some? { StagesDecided(r, chain.stages, t.value, env, next); }
  }

  lemma {:induction false} ChainsDecided(r: Rules, chains: seq<Chain>, env: Env)
    ensures
      CheckChains(r, chains, env).Some? ==>
        exists envs: seq<Env> ::
          |envs| == |chains| + 1 && envs[0] == env && ChainsGive(r, chains, envs)
          && envs[|chains|] == CheckChains(r, chains, env).value
    decreases |chains|
  {
    hide EndpointType, CheckStages, ChainGives;
    if chains == [] {
      assert ChainsGive(r, chains, [env]);
    } else if CheckChains(r, chains, env).Some? {
      var t := EndpointType(r, chains[0].source, env).value;
      var next := CheckStages(r, chains[0].stages, t, env).value;
      ChainDecided(r, chains[0], env, next);
      ChainsDecided(r, chains[1..], next);
      var rest: seq<Env> :|
        |rest| == |chains| && rest[0] == next && ChainsGive(r, chains[1..], rest)
        && rest[|chains| - 1] == CheckChains(r, chains, env).value;
      var envs := [env] + rest;
      forall i | 0 <= i < |chains|
        ensures ChainGives(r, chains[i], envs[i], envs[i + 1])
      {
        if i > 0 { assert chains[i] == chains[1..][i - 1] && envs[i] == rest[i - 1] && envs[i + 1] == rest[i]; }
      }
      assert ChainsGive(r, chains, envs) && envs[|chains|] == rest[|chains| - 1];
    }
  }

  lemma {:induction false} GivenIsChecked(r: Rules, chains: seq<Chain>, envs: seq<Env>)
    requires ChainsGive(r, chains, envs)
    ensures CheckChains(r, chains, envs[0]) == Some(envs[|chains|])
    decreases |chains|
  {
    hide EndpointType, CheckStages, ChainGives;
    if chains != [] {
      assert ChainGives(r, chains[0], envs[0], envs[1]);
      ChainDecided(r, chains[0], envs[0], envs[1]);
      var rest, more := chains[1..], envs[1..];
      forall i | 0 <= i < |rest|
        ensures ChainGives(r, rest[i], more[i], more[i + 1])
      {
        assert rest[i] == chains[i + 1] && more[i] == envs[i + 1] && more[i + 1] == envs[i + 2];
      }
      GivenIsChecked(r, rest, more);
    }
  }

  predicate AreDeclared(r: Rules, ports: seq<Port>)
  {
    forall i :: 0 <= i < |ports| ==> r.declared(ports[i].ty).Some?
  }

  /** The inputs, with the types they are declared with. */
  predicate Starts(r: Rules, ports: seq<Port>, env: Env)
  {
    && AreDeclared(r, ports)
    && (forall i, j :: 0 <= i < j < |ports| ==> ports[i].name != ports[j].name)
    && (forall x :: x in env ==> exists i :: 0 <= i < |ports| && ports[i].name == x)
    && (forall i :: 0 <= i < |ports| ==>
          ports[i].name in env && r.declared(ports[i].ty) == Some(env[ports[i].name]))
  }

  lemma {:induction false} DeclaredIff(r: Rules, ports: seq<Port>)
    ensures TypePorts(r, ports).Some? <==> AreDeclared(r, ports)
    decreases |ports|
  {
    if ports != [] {
      DeclaredIff(r, ports[1..]);
      assert forall i :: 1 <= i < |ports| ==> ports[i] == ports[1..][i - 1];
      assert forall i :: 0 <= i < |ports| - 1 ==> ports[1..][i] == ports[i + 1];
    }
  }

  lemma InputsDecided(r: Rules, ports: seq<Port>, env: Env)
    ensures InputEnv(r, ports, map[]) == Some(env) <==> Starts(r, ports, env)
  {
    InputsDeclared(r, ports, map[]);
    DeclaredIff(r, ports);
    var none: Env := map[];
    assert none.Keys == {};
    hide InputEnv, TypePorts;
    if AreDeclared(r, ports) {
      PortsMirrored(r, ports);
      var typed := TypePorts(r, ports).value;
      assert Fresh(typed, none.Keys) <==> forall i, j :: 0 <= i < j < |ports| ==> ports[i].name != ports[j].name by {
        if Fresh(typed, none.Keys) { assert forall i :: 0 <= i < |ports| ==> ports[i].name == typed[i].name; }
      }
      if Fresh(typed, none.Keys) {
        var all := InputEnv(r, ports, map[]).value;
        if Starts(r, ports, env) { SameInputs(r, ports, typed, all, env); }
        forall x | x in all
          ensures exists i :: 0 <= i < |ports| && ports[i].name == x
        {
          var i :| 0 <= i < |typed| && typed[i].name == x;
          assert ports[i].name == x;
        }
      }
    }
  }

  lemma SameInputs(r: Rules, ports: seq<Port>, typed: seq<TypedPort>, all: Env, env: Env)
    requires Starts(r, ports, env) && Gets(map[], all, typed) && |typed| == |ports|
    requires
      forall i :: 0 <= i < |ports| ==> typed[i].name == ports[i].name && r.declared(ports[i].ty) == Some(typed[i].ty)
    ensures all == env
  {
    forall x | x in all
      ensures x in env && env[x] == all[x]
    {
      var i :| 0 <= i < |typed| && typed[i].name == x;
    }
    forall x | x in env
      ensures x in all
    {
      var i :| 0 <= i < |ports| && ports[i].name == x;
      assert typed[i].name == x;
    }
  }

  /** Outputs are bound, and to what their declared type takes. */
  predicate OutputsAre(r: Rules, ports: seq<Port>, env: Env)
  {
    forall i :: 0 <= i < |ports| ==>
      && ports[i].name in env && r.declared(ports[i].ty).Some?
      && Assignable(r.declared(ports[i].ty).value, env[ports[i].name])
  }

  /** Inputs, the names after each chain, and outputs that keep to the rules. */
  ghost predicate IsTyping(r: Rules, c: Callable, envs: seq<Env>)
  {
    && |envs| == |c.chains| + 1 && ChainsGive(r, c.chains, envs)
    && Starts(r, c.inputs, envs[0]) && OutputsAre(r, c.outputs, envs[|c.chains|])
  }

  /** A callable is accepted just when the types of its names can be written down so that every part keeps the rules. */
  lemma CallableAcceptedIff(r: Rules, c: Callable, isProgram: bool)
    ensures
      CheckCallable(r, c, isProgram).Some?
      <==> (c.nodeParams != [] ==> !isProgram && !c.isExtern) && exists envs :: IsTyping(r, c, envs)
    ensures
      forall envs :: IsTyping(r, c, envs) && CheckCallable(r, c, isProgram).Some? ==>
        CheckCallable(r, c, isProgram).value == envs[|c.chains|]
  {
    hide CheckChains, ChainsGive, InputEnv, Starts, OutputsFit;
    forall envs | IsTyping(r, c, envs)
      ensures InputEnv(r, c.inputs, map[]) == Some(envs[0])
      ensures CheckChains(r, c.chains, envs[0]) == Some(envs[|c.chains|]) && OutputsFit(r, c.outputs, envs[|c.chains|])
    {
      InputsDecided(r, c.inputs, envs[0]);
      GivenIsChecked(r, c.chains, envs);
      OutputsFitIff(r, c.outputs, envs[|c.chains|]);
    }
    if CheckCallable(r, c, isProgram).Some? {
      var start := InputEnv(r, c.inputs, map[]).value;
      InputsDecided(r, c.inputs, start);
      ChainsDecided(r, c.chains, start);
      var envs: seq<Env> :|
        |envs| == |c.chains| + 1 && envs[0] == start && ChainsGive(r, c.chains, envs)
        && envs[|c.chains|] == CheckChains(r, c.chains, start).value;
      OutputsFitIff(r, c.outputs, envs[|c.chains|]);
      assert IsTyping(r, c, envs);
    }
  }
}
