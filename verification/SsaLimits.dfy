/** Which graphs the emitted instructions speak for, and what they leave out. */
module SsaLimits {
  import opened Ast
  import opened Types
  import opened Typed
  import opened SsaEmission
  import opened SsaForm
  import opened SsaMeaning
  import opened SsaCorrect

  // ---- Graphs without matches and placeholders ----

  /** No match, no text, no sequence literal, and tuples of the type and size they are declared with. */
  predicate Speaks(e: TypedEndpoint)
    decreases e, 0
  {
    match e.kind
    case Str(_) => false
    case Seq(_) => false
    case Tuple(items) => items != [] && e.ty.Tuple? && |e.ty.items| == |items| && AllSpeak(items)
    case Eval(source, stages) => Speaks(source) && StagesSpeak(stages)
    case _ => true
  }

  predicate AllSpeak(items: seq<TypedEndpoint>)
    decreases items, 0
  {
    items == [] || (Speaks(items[0]) && AllSpeak(items[1..]))
  }

  predicate StageSpeaks(s: TypedStage)
    decreases s, 0
  {
    match s.kind
    case Match(_) => false
    case Repeat(_, count) => Speaks(count)
    case Reduce(_, identity) => Speaks(identity)
    case Scan(_, identity) => Speaks(identity)
    case _ => true
  }

  predicate StagesSpeak(stages: seq<TypedStage>)
    decreases stages, 0
  {
    stages == [] || (StageSpeaks(stages[0]) && StagesSpeak(stages[1..]))
  }

  predicate ChainsSpeak(chains: seq<TypedChain>)
  {
    chains == [] || (Speaks(chains[0].source) && StagesSpeak(chains[0].stages) && ChainsSpeak(chains[1..]))
  }

  predicate CallableSpeaks(c: TypedCallable, output: Ty)
  {
    ChainsSpeak(c.chains) && (|c.outputs| > 1 ==> output.Tuple? && |output.items| == |c.outputs|)
  }

  // ---- They are the graphs with a value ----

  lemma {:induction false} EndpointValuedIff(
    cg: Codegen, mc: Machine, st: State, e: TypedEndpoint, env: TextEnv, input: LValue)
    requires Ready(st) && EnvKnown(env, st)
    ensures GraphEndpoint(cg, mc, e, EnvIn(mc, st, env, input)).Some?
            <==> EmitEndpoint(cg, st, e, env).Some? && Speaks(e)
    decreases e, 0
  {
    hide Ready, Execute, EnvKnown, EmitItems, EmitInline, GraphItems, GraphInline, AllSpeak, StagesSpeak, HasContext,
         InsertAll;
    match e.kind
    case Tuple(items) => ItemsValuedIff(cg, mc, st, items, env, input);
    case Eval(source, stages) =>
      EndpointValuedIff(cg, mc, st, source, env, input);
      if GraphEndpoint(cg, mc, source, EnvIn(mc, st, env, input)).Some? {
        EndpointMeans(cg, mc, st, source, env, input);
        EndpointGrows(cg, st, source, env);
        var r := EmitEndpoint(cg, st, source, env).value;
        EnvKept(mc, st, r.1, env, input);
        InlineValuedIff(cg, mc, r.1, stages, r.0, env, input);
      }
    case _ =>
  }

  lemma {:induction false} ItemsValuedIff(
    cg: Codegen, mc: Machine, st: State, items: seq<TypedEndpoint>, env: TextEnv, input: LValue)
    requires Ready(st) && EnvKnown(env, st)
    ensures GraphItems(cg, mc, items, EnvIn(mc, st, env, input)).Some?
            <==> EmitItems(cg, st, items, env).Some? && AllSpeak(items)
    decreases items, 0
  {
    hide Ready, Execute, EnvKnown, EnvIn, EmitEndpoint, GraphEndpoint, Speaks;
    if items != [] {
      EndpointValuedIff(cg, mc, st, items[0], env, input);
      if GraphEndpoint(cg, mc, items[0], EnvIn(mc, st, env, input)).Some? {
        EndpointGrows(cg, st, items[0], env);
        var first := EmitEndpoint(cg, st, items[0], env).value;
        EnvKept(mc, st, first.1, env, input);
        ItemsValuedIff(cg, mc, first.1, items[1..], env, input);
      }
    }
  }

  lemma {:induction false} InlineValuedIff(
    cg: Codegen, mc: Machine, st: State, stages: seq<TypedStage>, v: TextValue, env: TextEnv, input: LValue)
    requires Ready(st) && EnvKnown(env, st) && Known(v.operand, st)
    ensures GraphInline(cg, mc, stages, ValueIn(mc, st, v, input), EnvIn(mc, st, env, input)).Some?
            <==> EmitInline(cg, st, stages, v, env).Some? && StagesSpeak(stages)
    decreases stages, 0
  {
    hide Ready, Execute, EnvKnown, EnvIn, ValueIn, EmitStage, GraphStage, StageSpeaks;
    if stages != [] {
      StageValuedIff(cg, mc, st, stages[0], v, env, input);
      if GraphStage(cg, mc, stages[0], ValueIn(mc, st, v, input), EnvIn(mc, st, env, input)).Some? {
        StageMeans(cg, mc, st, stages[0], v, env, input);
        StageGrows(cg, st, stages[0], v, env);
        var r := EmitStage(cg, st, stages[0], v, env).value;
        EnvKept(mc, st, r.1, env, input);
        InlineValuedIff(cg, mc, r.1, stages[1..], r.0, env, input);
      }
    }
  }

  lemma {:induction false} StageValuedIff(
    cg: Codegen, mc: Machine, st: State, s: TypedStage, v: TextValue, env: TextEnv, input: LValue)
    requires Ready(st) && EnvKnown(env, st) && Known(v.operand, st)
    ensures GraphStage(cg, mc, s, ValueIn(mc, st, v, input), EnvIn(mc, st, env, input)).Some?
            <==> EmitStage(cg, st, s, v, env).Some? && StageSpeaks(s)
    decreases s, 0
  {
    hide Ready, Execute, EnvKnown, EnvIn, EmitEndpoint, GraphEndpoint, InvokeHelper, MapType, FilterType, ReduceType,
         Speaks;
    match s.kind
    case Call(name, _) => CallMeans(cg, mc, st, name, v, input);
    case Repeat(_, count) => OperandValuedIff(cg, mc, st, count, env, input);
    case Reduce(_, identity) => OperandValuedIff(cg, mc, st, identity, env, input);
    case Scan(_, identity) => OperandValuedIff(cg, mc, st, identity, env, input);
    case _ =>
  }

  lemma {:induction false} OperandValuedIff(
    cg: Codegen, mc: Machine, st: State, e: TypedEndpoint, env: TextEnv, input: LValue)
    requires Ready(st) && EnvKnown(env, st)
    ensures
      var graph := GraphEndpoint(cg, mc, e, EnvIn(mc, st, env, input));
      && (graph.Some? <==> EmitEndpoint(cg, st, e, env).Some? && Speaks(e))
      && (graph.Some? ==> graph.value.ty == EmitEndpoint(cg, st, e, env).value.0.ty)
    decreases e, 1
  {
    EndpointValuedIff(cg, mc, st, e, env, input);
    if GraphEndpoint(cg, mc, e, EnvIn(mc, st, env, input)).Some? { EndpointMeans(cg, mc, st, e, env, input); }
  }

  lemma {:induction false} BindValuedIff(mc: Machine, st: State, t: BindingTarget, v: TextValue, env: TextEnv,
      input: LValue)
    requires Ready(st) && EnvKnown(env, st) && Known(v.operand, st)
    ensures GraphBind(t, ValueIn(mc, st, v, input), EnvIn(mc, st, env, input)).Some? <==> EmitBind(st, t, v, env).Some?
    decreases t, 0
  {
    hide Ready, Execute, EnvKnown, EmitBinds, GraphBinds;
    if t.Both? && v.ty.Tuple? && |v.ty.items| == |t.items| { BindsValuedIff(mc, st, t.items, v, 0, env, input); }
  }

  lemma {:induction false} BindsValuedIff(
    mc: Machine, st: State, ts: seq<BindingTarget>, v: TextValue, index: nat, env: TextEnv, input: LValue)
    requires v.ty.Tuple? && index + |ts| == |v.ty.items|
    requires Ready(st) && EnvKnown(env, st) && Known(v.operand, st)
    ensures GraphBinds(ts, ValueIn(mc, st, v, input), index, EnvIn(mc, st, env, input)).Some?
            <==> EmitBinds(st, ts, v, index, env).Some?
    decreases ts, 0
  {
    hide Ready, Execute, EnvKnown, EmitBind, GraphBind, EnvIn;
    if ts != [] {
      ExtractGrows(st, v, index);
      var field := ExtractField(st, v, index).value;
      var item := TextValue(field.0, v.ty.items[index]);
      ExtractMeans(mc, st, v, index, item.ty, input);
      EnvKept(mc, st, field.1, env, input);
      BindValuedIff(mc, field.1, ts[0], item, env, input);
      if EmitBind(field.1, ts[0], item, env).Some? {
        BindMeans(mc, field.1, ts[0], item, env, input);
        BindGrows(field.1, ts[0], item, env);
        var r := EmitBind(field.1, ts[0], item, env).value;
        ValueKept(mc, st, r.1, v, input);
        BindsValuedIff(mc, r.1, ts[1..], v, index + 1, r.0, input);
      }
    }
  }

  lemma {:induction false} StagesValuedIff(
    cg: Codegen, mc: Machine, st: State, stages: seq<TypedStage>, v: TextValue, env: TextEnv, input: LValue)
    requires Ready(st) && EnvKnown(env, st) && Known(v.operand, st)
    ensures GraphStages(cg, mc, stages, ValueIn(mc, st, v, input), EnvIn(mc, st, env, input)).Some?
            <==> EmitStages(cg, st, stages, v, env).Some? && StagesSpeak(stages)
    decreases stages, 0
  {
    hide Ready, Execute, EmitStage, GraphStage, EmitBind, GraphBind, InvokeHelper, ExtractField, EnvIn, EnvKnown,
         FaultMapType,
         StageSpeaks;
    if stages != [] {
      match stages[0].kind
      case Bind(target) =>
        PlainStageSpeaks(stages[0]);
        BindValuedIff(mc, st, target, v, env, input);
        if EmitBind(st, target, v, env).Some? {
          BindMeans(mc, st, target, v, env, input);
          BindGrows(st, target, v, env);
          var r := EmitBind(st, target, v, env).value;
          ValueKept(mc, st, r.1, v, input);
          StagesValuedIff(cg, mc, r.1, stages[1..], v, r.0, input);
        }
      case FaultMap(node, ok, fault) =>
        PlainStageSpeaks(stages[0]);
        if FaultMapType(cg, node, v.ty).Some? {
          FaultMapHasType(cg, node, v.ty);
          var ty := FaultMapType(cg, node, v.ty).value;
          FaultMapMeans(mc, st, node, ok, fault, ty, v, env, input);
          FaultMapFields(st, node, ty, v);
          var parts := InvokeHelper(st, Helper("fault_map", node), ty, [v]);
          var oks := ExtractField(parts.1, parts.0, 0).value;
          var faults := ExtractField(oks.1, parts.0, 1).value;
          ValueKept(mc, st, faults.1, v, input);
          StagesValuedIff(cg, mc, faults.1, stages[1..], v,
                          env[ok := TextValue(oks.0, ty.items[0])][fault := TextValue(faults.0, ty.items[1])], input);
        }
      case _ =>
        StageValuedIff(cg, mc, st, stages[0], v, env, input);
        if GraphStage(cg, mc, stages[0], ValueIn(mc, st, v, input), EnvIn(mc, st, env, input)).Some? {
          StageMeans(cg, mc, st, stages[0], v, env, input);
          StageGrows(cg, st, stages[0], v, env);
          var r := EmitStage(cg, st, stages[0], v, env).value;
          EnvKept(mc, st, r.1, env, input);
          StagesValuedIff(cg, mc, r.1, stages[1..], r.0, env, input);
        }
    }
  }

  lemma PlainStageSpeaks(s: TypedStage)
    requires s.kind.Bind? || s.kind.FaultMap?
    ensures StageSpeaks(s)
  {}

  lemma {:induction false} ChainsValuedIff(
    cg: Codegen, mc: Machine, st: State, chains: seq<TypedChain>, env: TextEnv, input: LValue)
    requires Ready(st) && EnvKnown(env, st)
    ensures GraphChains(cg, mc, chains, EnvIn(mc, st, env, input)).Some?
            <==> EmitChains(cg, st, chains, env).Some? && ChainsSpeak(chains)
    decreases chains
  {
    hide Ready, Execute, EmitEndpoint, GraphEndpoint, EmitStages, GraphStages, EnvIn, EnvKnown, Speaks, StagesSpeak,
         HasContext;
    if chains != [] {
      EndpointValuedIff(cg, mc, st, chains[0].source, env, input);
      if GraphEndpoint(cg, mc, chains[0].source, EnvIn(mc, st, env, input)).Some? {
        EndpointMeans(cg, mc, st, chains[0].source, env, input);
        EndpointGrows(cg, st, chains[0].source, env);
        var source := EmitEndpoint(cg, st, chains[0].source, env).value;
        EnvKept(mc, st, source.1, env, input);
        StagesValuedIff(cg, mc, source.1, chains[0].stages, source.0, env, input);
        if EmitStages(cg, source.1, chains[0].stages, source.0, env).Some? && StagesSpeak(chains[0].stages) {
          StagesMean(cg, mc, source.1, chains[0].stages, source.0, env, input);
          StagesGrow(cg, source.1, chains[0].stages, source.0, env);
          var r := EmitStages(cg, source.1, chains[0].stages, source.0, env).value;
          ChainsValuedIff(cg, mc, r.1, chains[1..], r.0, input);
        }
      }
    }
  }

  lemma {:induction false} OutputsValuedIff(mc: Machine, st: State, ports: seq<TypedPort>, env: TextEnv, input: LValue)
    ensures GraphOutputs(ports, EnvIn(mc, st, env, input)).Some? <==> OutputValues(ports, env).Some?
  {
    if ports != [] { OutputsValuedIff(mc, st, ports[1..], env, input); }
  }

  lemma ReturnedValuedIff(mc: Machine, st: State, ports: seq<TypedPort>, env: TextEnv, output: Ty, input: LValue)
    ensures GraphReturned(ports, EnvIn(mc, st, env, input), output).Some?
            <==> EmitOutputs(st, ports, env, output).Some? && (|ports| > 1 ==> output.Tuple? && |output.items| == |ports|)
  {
    hide EnvIn, InsertAll;
    OutputsValuedIff(mc, st, ports, env, input);
    if |ports| == 1 { assert OutputValues(ports[1..], env) == Some([]); }
  }

  /** A graph has a value exactly when code is emitted for it and it has no match and no placeholder in it. */
  lemma GraphHasValueIff(
    cg: Codegen, mc: Machine, c: TypedCallable, input: Ty, output: Ty, declared: set<Declaration>, v: LValue)
    ensures GraphCallable(cg, mc, c, input, output, v).Some?
            <==> EmitCallable(cg, c, input, output, declared).Some? && CallableSpeaks(c, output)
  {
    hide Ready, Execute, EmitChains, GraphChains, EnvKnown, EnvIn, Entered, GraphEntered, EmitOutputs, GraphReturned,
         ChainsSpeak;
    if |c.inputs| <= 1 || input.Tuple? {
      EnteredReady(c, input, declared);
      EnteredMeans(mc, c, input, declared, v);
      var entered := Entered(c, input, declared);
      ChainsValuedIff(cg, mc, entered.1, c.chains, entered.0, v);
      if GraphChains(cg, mc, c.chains, GraphEntered(c, input, v)).Some? {
        ChainsMean(cg, mc, entered.1, c.chains, entered.0, v);
        ChainsGrow(cg, entered.1, c.chains, entered.0);
        var body := EmitChains(cg, entered.1, c.chains, entered.0).value;
        ReturnedValuedIff(mc, body.1, c.outputs, body.0, output, v);
      }
    }
  }

  // ---- Arms are left out ----

  function WithoutArms(e: TypedEndpoint): TypedEndpoint
    decreases e, 0
  {
    match e.kind
    case Tuple(items) => e.(kind := EndpointKind.Tuple(AllWithoutArms(items)))
    case Eval(source, stages) => e.(kind := EndpointKind.Eval(WithoutArms(source), StagesWithoutArms(stages)))
    case _ => e
  }

  function AllWithoutArms(items: seq<TypedEndpoint>): (r: seq<TypedEndpoint>)
    ensures |r| == |items|
    decreases items, 0
  {
    if items == [] then [] else [WithoutArms(items[0])] + AllWithoutArms(items[1..])
  }

  function StageWithoutArms(s: TypedStage): TypedStage
    decreases s, 0
  {
    match s.kind
    case Match(_) => s.(kind := StageKind.Match([]))
    case Repeat(node, count) => s.(kind := StageKind.Repeat(node, WithoutArms(count)))
    case Reduce(op, identity) => s.(kind := StageKind.Reduce(op, WithoutArms(identity)))
    case Scan(op, identity) => s.(kind := StageKind.Scan(op, WithoutArms(identity)))
    case _ => s
  }

  function StagesWithoutArms(stages: seq<TypedStage>): (r: seq<TypedStage>)
    ensures |r| == |stages|
    decreases stages, 0
  {
    if stages == [] then [] else [StageWithoutArms(stages[0])] + StagesWithoutArms(stages[1..])
  }

  function ChainsWithoutArms(chains: seq<TypedChain>): (r: seq<TypedChain>)
    ensures |r| == |chains|
  {
    if chains == [] then [] else
      [TypedChain(WithoutArms(chains[0].source), StagesWithoutArms(chains[0].stages))] + ChainsWithoutArms(chains[1..])
  }

  lemma {:induction false} EndpointSameCode(cg: Codegen, st: State, e: TypedEndpoint, env: TextEnv)
    ensures EmitEndpoint(cg, st, WithoutArms(e), env) == EmitEndpoint(cg, st, e, env)
    decreases e, 0
  {
    hide EmitItems, EmitInline, AllWithoutArms, StagesWithoutArms, HasContext, InsertAll;
    match e.kind
    case Tuple(items) => ItemsSameCode(cg, st, items, env);
    case Eval(source, stages) =>
      EndpointSameCode(cg, st, source, env);
      SameContext(cg, source, stages);
      var r := EmitEndpoint(cg, st, source, env);
      if r.Some? { InlineSameCode(cg, r.value.1, stages, r.value.0, env); }
    case _ =>
  }

  lemma SameContext(cg: Codegen, source: TypedEndpoint, stages: seq<TypedStage>)
    ensures HasContext(cg, WithoutArms(source), StagesWithoutArms(stages)) <==> HasContext(cg, source, stages)
  {}

  lemma {:induction false} ItemsSameCode(cg: Codegen, st: State, items: seq<TypedEndpoint>, env: TextEnv)
    ensures EmitItems(cg, st, AllWithoutArms(items), env) == EmitItems(cg, st, items, env)
    decreases items, 0
  {
    hide EmitEndpoint, WithoutArms;
    if items != [] {
      assert AllWithoutArms(items)[1..] == AllWithoutArms(items[1..]);
      EndpointSameCode(cg, st, items[0], env);
      var first := EmitEndpoint(cg, st, items[0], env);
      if first.Some? { ItemsSameCode(cg, first.value.1, items[1..], env); }
    }
  }

  lemma {:induction false} InlineSameCode(cg: Codegen, st: State, stages: seq<TypedStage>, v: TextValue, env: TextEnv)
    ensures EmitInline(cg, st, StagesWithoutArms(stages), v, env) == EmitInline(cg, st, stages, v, env)
    decreases stages, 0
  {
    hide EmitStage, StageWithoutArms;
    if stages != [] {
      assert StagesWithoutArms(stages)[1..] == StagesWithoutArms(stages[1..]);
      StageSameCode(cg, st, stages[0], v, env);
      var r := EmitStage(cg, st, stages[0], v, env);
      if r.Some? { InlineSameCode(cg, r.value.1, stages[1..], r.value.0, env); }
    }
  }

  lemma {:induction false} StageSameCode(cg: Codegen, st: State, s: TypedStage, v: TextValue, env: TextEnv)
    ensures EmitStage(cg, st, StageWithoutArms(s), v, env) == EmitStage(cg, st, s, v, env)
    decreases s, 0
  {
    hide EmitEndpoint, WithoutArms, InvokeHelper, MapType, FilterType, ReduceType;
    match s.kind
    case Repeat(_, count) => EndpointSameCode(cg, st, count, env);
    case Reduce(_, identity) => EndpointSameCode(cg, st, identity, env);
    case Scan(_, identity) => EndpointSameCode(cg, st, identity, env);
    case _ =>
  }

  lemma {:induction false} StagesSameCode(cg: Codegen, st: State, stages: seq<TypedStage>, v: TextValue, env: TextEnv)
    ensures EmitStages(cg, st, StagesWithoutArms(stages), v, env) == EmitStages(cg, st, stages, v, env)
    decreases stages, 0
  {
    hide EmitStage, StageWithoutArms, InvokeHelper, ExtractField, FaultMapType, EmitBind;
    if stages != [] {
      assert StagesWithoutArms(stages)[1..] == StagesWithoutArms(stages[1..]);
      StageSameCode(cg, st, stages[0], v, env);
      match stages[0].kind
      case Bind(target) =>
        BindingStays(stages[0]);
        var r := EmitBind(st, target, v, env);
        if r.Some? { StagesSameCode(cg, r.value.1, stages[1..], v, r.value.0); }
      case FaultMap(node, ok, fault) =>
        BindingStays(stages[0]);
        if FaultMapType(cg, node, v.ty).Some? {
          FaultMapHasType(cg, node, v.ty);
          var ty := FaultMapType(cg, node, v.ty).value;
          FaultMapFields(st, node, ty, v);
          var parts := InvokeHelper(st, Helper("fault_map", node), ty, [v]);
          var oks := ExtractField(parts.1, parts.0, 0).value;
          var faults := ExtractField(oks.1, parts.0, 1).value;
          StagesSameCode(cg, faults.1, stages[1..], v,
                         env[ok := TextValue(oks.0, ty.items[0])][fault := TextValue(faults.0, ty.items[1])]);
        }
      case _ =>
        BindingStays(stages[0]);
        var r := EmitStage(cg, st, stages[0], v, env);
        if r.Some? { StagesSameCode(cg, r.value.1, stages[1..], r.value.0, env); }
    }
  }

  lemma BindingStays(s: TypedStage)
    ensures s.kind.Bind? || s.kind.FaultMap? ==> StageWithoutArms(s) == s
    ensures StageWithoutArms(s).kind.Bind? <==> s.kind.Bind?
    ensures StageWithoutArms(s).kind.FaultMap? <==> s.kind.FaultMap?
  {}

  lemma {:induction false} ChainsSameCode(cg: Codegen, st: State, chains: seq<TypedChain>, env: TextEnv)
    ensures EmitChains(cg, st, ChainsWithoutArms(chains), env) == EmitChains(cg, st, chains, env)
    decreases chains
  {
    hide EmitEndpoint, EmitStages, WithoutArms, StagesWithoutArms, HasContext;
    if chains != [] {
      assert ChainsWithoutArms(chains)[1..] == ChainsWithoutArms(chains[1..]);
      EndpointSameCode(cg, st, chains[0].source, env);
      SameContext(cg, chains[0].source, chains[0].stages);
      var source := EmitEndpoint(cg, st, chains[0].source, env);
      if source.Some? {
        StagesSameCode(cg, source.value.1, chains[0].stages, source.value.0, env);
        var r := EmitStages(cg, source.value.1, chains[0].stages, source.value.0, env);
        if r.Some? { ChainsSameCode(cg, r.value.1, chains[1..], r.value.0); }
      }
    }
  }

  /** Two callables that differ in nothing but the arms of their matches have the same code. */
  lemma ArmsAreLeftOut(
    cg: Codegen, c: TypedCallable, c': TypedCallable, input: Ty, output: Ty, declared: set<Declaration>)
    requires c'.inputs == c.inputs && c'.outputs == c.outputs
    requires ChainsWithoutArms(c'.chains) == ChainsWithoutArms(c.chains)
    ensures EmitCallable(cg, c', input, output, declared) == EmitCallable(cg, c, input, output, declared)
  {
    hide EmitChains, EmitOutputs, ChainsWithoutArms;
    if |c.inputs| <= 1 || input.Tuple? {
      var entered := Entered(c, input, declared);
      ChainsSameCode(cg, entered.1, c.chains, entered.0);
      ChainsSameCode(cg, entered.1, c'.chains, entered.0);
    }
  }
}
