/** The typed graph of a callable has every part of its source, in its place, and nothing else. */
module AnnotatedGraphs {
  import opened Ast
  import opened Types
  import opened Typed
  import opened Checking

  // ---- Typed parts and their sources ----

  predicate Mirrors(r: Rules, e: Endpoint, t: TypedEndpoint)
    decreases e, 0
  {
    match e
    case Variable(x) => t.kind == EndpointKind.Variable(x)
    case Name(_) => false
    case Int(n) => t.kind == EndpointKind.Int(n)
    case Real(text) => t.kind == EndpointKind.Real(r.realOf(text))
    case RealF32(text) => t.kind == EndpointKind.RealF32(r.realOf(text))
    case Bool(b) => t.kind == EndpointKind.Bool(b)
    case Str(s) => t.kind == EndpointKind.Str(s)
    case Unit => t.kind == EndpointKind.Unit
    case Tuple(items) => t.kind.Tuple? && AllMirror(r, items, t.kind.items)
    case Seq(items) => t.kind.Seq? && AllMirror(r, items, t.kind.items)
    case Struct(name, fields) => t.kind.Struct? && t.kind.name == name && FieldsMirror(r, fields, t.kind.fields)
    case Eval(source, stages) =>
      t.kind.Eval? && Mirrors(r, source, t.kind.source) && StagesMirror(r, true, stages, t.kind.stages)
  }

  predicate AllMirror(r: Rules, items: seq<Endpoint>, ts: seq<TypedEndpoint>)
    decreases items, 0
  {
    |ts| == |items| && forall i :: 0 <= i < |items| ==> Mirrors(r, items[i], ts[i])
  }

  predicate FieldsMirror(r: Rules, fields: seq<Field>, ts: seq<TypedField>)
    decreases fields, 0
  {
    && |ts| == |fields|
    && forall i :: 0 <= i < |fields| ==> ts[i].name == fields[i].name && Mirrors(r, fields[i].value, ts[i].value)
  }

  predicate StagesMirror(r: Rules, inline: bool, stages: seq<Stage>, ts: seq<TypedStage>)
    decreases stages, 0
  {
    |ts| == |stages| && forall i :: 0 <= i < |stages| ==> StageMirrors(r, inline, stages[i], ts[i])
  }

  predicate StageMirrors(r: Rules, inline: bool, s: Stage, t: TypedStage)
    decreases s, 0
  {
    match s
    case Value(e) => e.Name? && t.kind == StageKind.Call(r.text(e.node), r.symbol(r.text(e.node)))
    case Bind(target) => t.kind == StageKind.Bind(target)
    case Map(n) => t.kind == StageKind.Map(r.text(n))
    case FaultMap(n, ok, fault) => t.kind == StageKind.FaultMap(r.text(n), ok, fault)
    case Filter(n) => t.kind == StageKind.Filter(r.text(n))
    case FieldOf(f) => t.kind == StageKind.FieldOf(f)
    case Repeat(count, n) => t.kind.Repeat? && t.kind.node == r.text(n) && Mirrors(r, count, t.kind.count)
    case Reduce(n, identity) => t.kind.Reduce? && t.kind.op == r.text(n) && Mirrors(r, identity, t.kind.identity)
    case Scan(n, identity) => t.kind.Scan? && t.kind.op == r.text(n) && Mirrors(r, identity, t.kind.identity)
    case Match(arms) =>
      && t.kind.Match? && |t.kind.arms| == |arms|
      && forall i :: 0 <= i < |arms| ==> ArmMirrors(r, inline, arms[i], t.input, t.kind.arms[i])
  }

  predicate ArmMirrors(r: Rules, inline: bool, arm: MatchArm, input: Ty, t: TypedArm)
    decreases arm, 0
  {
    && (match arm.guard
        case Fallback => t.guard == GuardFallback
        case Call(n, args) => t.guard.GuardCall? && t.guard.node == r.text(n) && AllMirror(r, args, t.guard.args))
    && match arm.target
       case ToNode(n) => t.target == TargetNode(r.text(n)) && r.node(inline, n, input) == Some(t.output)
       case ToValue(e) => t.target.TargetValue? && Mirrors(r, e, t.target.value)
  }

  predicate ChainMirrors(r: Rules, chain: Chain, t: TypedChain)
  {
    Mirrors(r, chain.source, t.source) && StagesMirror(r, false, chain.stages, t.stages)
  }

  // ---- The annotating checker mirrors ----

  lemma {:induction false} EndpointMirrored(r: Rules, e: Endpoint, env: Env)
    requires TypeEndpoint(r, e, env).Some?
    ensures Mirrors(r, e, TypeEndpoint(r, e, env).value)
    decreases e, 1
  {
    hide TypeItems, TypeFields, TypeInline, AllMirror, FieldsMirror, StagesMirror, EndpointType, SequenceItems;
    match e
    case Tuple(items) => ItemsMirrored(r, items, env);
    case Seq(items) => ItemsMirrored(r, items, env);
    case Struct(_, fields) => FieldsMirrored(r, fields, env);
    case Eval(source, stages) =>
      EndpointMirrored(r, source, env);
      InlineMirrored(r, stages, TypeEndpoint(r, source, env).value.ty, env);
    case _ =>
  }

  lemma {:induction false} ItemsMirrored(r: Rules, items: seq<Endpoint>, env: Env)
    requires TypeItems(r, items, env).Some?
    ensures AllMirror(r, items, TypeItems(r, items, env).value)
    decreases items, 1
  {
    hide TypeEndpoint, Mirrors;
    if items != [] {
      EndpointMirrored(r, items[0], env);
      ItemsMirrored(r, items[1..], env);
      assert forall i :: 1 <= i < |items| ==> items[i] == items[1..][i - 1];
    }
  }

  lemma {:induction false} FieldsMirrored(r: Rules, fields: seq<Field>, env: Env)
    requires TypeFields(r, fields, env).Some?
    ensures FieldsMirror(r, fields, TypeFields(r, fields, env).value)
    decreases fields, 1
  {
    hide TypeEndpoint, Mirrors;
    if fields != [] {
      EndpointMirrored(r, fields[0].value, env);
      FieldsMirrored(r, fields[1..], env);
      assert forall i :: 1 <= i < |fields| ==> fields[i] == fields[1..][i - 1];
    }
  }

  lemma StagesJoin(r: Rules, inline: bool, stages: seq<Stage>, first: TypedStage, rest: seq<TypedStage>)
    requires stages != [] && StageMirrors(r, inline, stages[0], first) && StagesMirror(r, inline, stages[1..], rest)
    ensures StagesMirror(r, inline, stages, [first] + rest)
  {
    hide StageMirrors;
    assert forall i :: 1 <= i < |stages| ==> stages[i] == stages[1..][i - 1];
  }

  lemma {:induction false} InlineMirrored(r: Rules, stages: seq<Stage>, t: Ty, env: Env)
    requires TypeInline(r, stages, t, env).Some?
    ensures StagesMirror(r, true, stages, TypeInline(r, stages, t, env).value)
    decreases stages, 1
  {
    hide TypeStage, StageMirrors;
    if stages != [] {
      StageMirrored(r, true, stages[0], t, false, env);
      var s := TypeStage(r, true, stages[0], t, false, env).value;
      InlineMirrored(r, stages[1..], s.0.output, s.1);
      StagesJoin(r, true, stages, s.0, TypeInline(r, stages[1..], s.0.output, s.1).value);
    }
  }

  lemma {:induction false} StageMirrored(r: Rules, inline: bool, s: Stage, t: Ty, isLast: bool, env: Env)
    requires TypeStage(r, inline, s, t, isLast, env).Some?
    ensures StageMirrors(r, inline, s, TypeStage(r, inline, s, t, isLast, env).value.0)
    decreases s, 1
  {
    hide TypeEndpoint, Mirrors, TypeArms, ArmMirrors, Expects;
    match s
    case Repeat(count, _) => EndpointMirrored(r, count, env);
    case Reduce(_, identity) => EndpointMirrored(r, identity, env);
    case Scan(_, identity) => EndpointMirrored(r, identity, env);
    case Match(arms) => ArmsMirrored(r, inline, None, arms, t, env);
    case _ =>
  }

  lemma {:induction false} ArmsMirrored(r: Rules, inline: bool, sofar: Option<Ty>, arms: seq<MatchArm>, t: Ty, env: Env)
    requires TypeArms(r, inline, sofar, arms, t, env).Some?
    ensures
      var ts := TypeArms(r, inline, sofar, arms, t, env).value.0;
      |ts| == |arms| && forall i :: 0 <= i < |arms| ==> ArmMirrors(r, inline, arms[i], t, ts[i])
    decreases arms, 1
  {
    hide TypeArm, ArmMirrors, Joined;
    if arms != [] {
      ArmMirrored(r, inline, arms[0], t, env);
      var next := Joined(sofar, TypeArm(r, inline, arms[0], t, env).value.output);
      ArmsMirrored(r, inline, Some(next.value), arms[1..], t, env);
      assert forall i :: 1 <= i < |arms| ==> arms[i] == arms[1..][i - 1];
    }
  }

  lemma {:induction false} ArmMirrored(r: Rules, inline: bool, arm: MatchArm, t: Ty, env: Env)
    requires TypeArm(r, inline, arm, t, env).Some?
    ensures ArmMirrors(r, inline, arm, t, TypeArm(r, inline, arm, t, env).value)
    decreases arm, 1
  {
    hide TypeEndpoint, Mirrors, TypeItems, AllMirror, Expects;
    if arm.guard.Call? { ItemsMirrored(r, arm.guard.args, env); }
    if arm.target.ToValue? { EndpointMirrored(r, arm.target.endpoint, env); }
  }

  lemma {:induction false} StagesMirrored(r: Rules, stages: seq<Stage>, t: Ty, env: Env)
    requires TypeStages(r, stages, t, env).Some?
    ensures StagesMirror(r, false, stages, TypeStages(r, stages, t, env).value.0)
    decreases |stages|
  {
    hide TypeStage, StageMirrors;
    if stages != [] {
      StageMirrored(r, false, stages[0], t, |stages| == 1, env);
      var s := TypeStage(r, false, stages[0], t, |stages| == 1, env).value;
      StagesMirrored(r, stages[1..], s.0.output, s.1);
      StagesJoin(r, false, stages, s.0, TypeStages(r, stages[1..], s.0.output, s.1).value.0);
    }
  }

  lemma {:induction false} ChainsMirrored(r: Rules, chains: seq<Chain>, env: Env)
    requires TypeChains(r, chains, env).Some?
    ensures
      var ts := TypeChains(r, chains, env).value.0;
      |ts| == |chains| && forall i :: 0 <= i < |chains| ==> ChainMirrors(r, chains[i], ts[i])
    decreases |chains|
  {
    hide TypeEndpoint, Mirrors, TypeStages, StagesMirror;
    if chains != [] {
      EndpointMirrored(r, chains[0].source, env);
      var s := TypeEndpoint(r, chains[0].source, env).value;
      StagesMirrored(r, chains[0].stages, s.ty, env);
      ChainsMirrored(r, chains[1..], TypeStages(r, chains[0].stages, s.ty, env).value.1);
      assert forall i :: 1 <= i < |chains| ==> chains[i] == chains[1..][i - 1];
    }
  }

  /** Ports keep their names and get their declared types; chains keep their parts. */
  lemma CallableMirrored(r: Rules, c: Callable, isProgram: bool)
    requires TypeCallable(r, c, isProgram).Some?
    ensures
      var t := TypeCallable(r, c, isProgram).value.0;
      && t.name == c.name && PortsMirror(r, c.inputs, t.inputs) && PortsMirror(r, c.outputs, t.outputs)
      && |t.chains| == |c.chains| && forall i :: 0 <= i < |c.chains| ==> ChainMirrors(r, c.chains[i], t.chains[i])
  {
    hide TypeChains, ChainMirrors, OutputsFit, TypePorts;
    ChainsMirrored(r, c.chains, InputEnv(r, c.inputs, map[]).value);
    PortsMirrored(r, c.inputs);
    PortsMirrored(r, c.outputs);
  }

  predicate PortsMirror(r: Rules, ports: seq<Port>, ts: seq<TypedPort>)
  {
    |ts| == |ports|
    && forall i :: 0 <= i < |ports| ==> ts[i].name == ports[i].name && r.declared(ports[i].ty) == Some(ts[i].ty)
  }

  lemma {:induction false} PortsMirrored(r: Rules, ports: seq<Port>)
    requires TypePorts(r, ports).Some?
    ensures PortsMirror(r, ports, TypePorts(r, ports).value)
    decreases |ports|
  {
    if ports != [] { PortsMirrored(r, ports[1..]); }
  }
}
