/** Both checkers accept the same graphs, with the same types and names. */
module CheckersAgree {
  import opened Ast
  import opened Types
  import opened Typed
  import opened Checking

  // ---- Typed graphs hang together ----

  /** A tuple has the types of its items; in an evaluation each stage takes what the one before returns. */
  predicate Linked(e: TypedEndpoint)
    decreases e, 0
  {
    match e.kind
    case Tuple(items) => e.ty == Ty.Tuple(TypesOf(items)) && AllLinked(items)
    case Seq(items) => AllLinked(items)
    case Struct(_, fields) => FieldsLinked(fields)
    case Eval(source, stages) =>
      Linked(source) && StagesLinked(source.ty, stages) && e.ty == LastOutput(source.ty, stages)
    case _ => true
  }

  predicate AllLinked(es: seq<TypedEndpoint>)
    decreases es, 0
  {
    es == [] || (Linked(es[0]) && AllLinked(es[1..]))
  }

  predicate FieldsLinked(fs: seq<TypedField>)
    decreases fs, 0
  {
    fs == [] || (Linked(fs[0].value) && FieldsLinked(fs[1..]))
  }

  predicate StagesLinked(t: Ty, ss: seq<TypedStage>)
    decreases ss, 0
  {
    ss == [] || (ss[0].input == t && StageLinked(ss[0]) && StagesLinked(ss[0].output, ss[1..]))
  }

  predicate StageLinked(s: TypedStage)
    decreases s, 0
  {
    match s.kind
    case Repeat(_, count) => Linked(count)
    case Reduce(_, identity) => Linked(identity)
    case Scan(_, identity) => Linked(identity)
    case Match(arms) => ArmsLinked(arms)
    case _ => true
  }

  predicate ArmsLinked(arms: seq<TypedArm>)
    decreases arms, 0
  {
    arms == [] || (ArmLinked(arms[0]) && ArmsLinked(arms[1..]))
  }

  predicate ArmLinked(arm: TypedArm)
    decreases arm, 0
  {
    GuardLinked(arm.guard) && TargetLinked(arm.target) && (arm.target.TargetValue? ==> arm.output == arm.target.value.ty)
  }

  predicate GuardLinked(g: TypedGuard)
    decreases g, 0
  {
    g.GuardCall? ==> AllLinked(g.args)
  }

  predicate TargetLinked(t: TypedTarget)
    decreases t, 0
  {
    t.TargetValue? ==> Linked(t.value)
  }

  predicate ChainsLinked(cs: seq<TypedChain>)
  {
    forall i :: 0 <= i < |cs| ==> Linked(cs[i].source) && StagesLinked(cs[i].source.ty, cs[i].stages)
  }

  // ---- Agreement ----

  lemma {:induction false} EndpointsAgree(r: Rules, e: Endpoint, env: Env)
    ensures TypeEndpoint(r, e, env).Some? <==> EndpointType(r, e, env).Some?
    ensures TypeEndpoint(r, e, env).Some? ==>
      var typed := TypeEndpoint(r, e, env).value;
      typed.ty == EndpointType(r, e, env).value && Linked(typed)
    decreases e, 0
  {
    match e
    case Tuple(items) => ItemsAgree(r, items, env);
    case Seq(items) => ItemsAgree(r, items, env);
    case Struct(name, fields) => StructsAgree(r, name, fields, env);
    case Eval(source, stages) =>
      EndpointsAgree(r, source, env);
      var t := EndpointType(r, source, env);
      if t.Some? { InlineAgrees(r, stages, t.value, env); }
    case _ =>
  }

  lemma {:induction false} ItemsAgree(r: Rules, items: seq<Endpoint>, env: Env)
    ensures TypeItems(r, items, env).Some? <==> ItemTypes(r, items, env).Some?
    ensures TypeItems(r, items, env).Some? ==>
      var typed := TypeItems(r, items, env).value;
      TypesOf(typed) == ItemTypes(r, items, env).value && AllLinked(typed)
    decreases items, 0
  {
    hide TypeEndpoint, EndpointType, Linked, TypesOf;
    if items != [] {
      EndpointsAgree(r, items[0], env);
      ItemsAgree(r, items[1..], env);
      if TypeItems(r, items, env).Some? {
        TypesOfCons(TypeEndpoint(r, items[0], env).value, TypeItems(r, items[1..], env).value);
      }
    } else {
      assert TypesOf([]) == [];
    }
  }

  lemma TypesOfCons(e: TypedEndpoint, es: seq<TypedEndpoint>)
    ensures TypesOf([e] + es) == [e.ty] + TypesOf(es)
  {}

  lemma {:induction false} StructsAgree(r: Rules, name: string, fields: seq<Field>, env: Env)
    ensures
      var e := Endpoint.Struct(name, fields);
      TypeEndpoint(r, e, env).Some? <==> EndpointType(r, e, env).Some?
    ensures
      var e := Endpoint.Struct(name, fields);
      TypeEndpoint(r, e, env).Some? ==>
      TypeEndpoint(r, e, env).value.ty == EndpointType(r, e, env).value && Linked(TypeEndpoint(r, e, env).value)
    decreases fields, 1
  {
    if EndpointType(r, Endpoint.Struct(name, fields), env).Some? {
      FieldsAgree(r, r.structs[name].fields, fields, {}, env);
    }
  }

  lemma {:induction false} FieldsAgree(r: Rules, expected: seq<TyField>, fields: seq<Field>, seen: set<string>, env: Env)
    requires FieldsFit(r, expected, fields, seen, env)
    ensures TypeFields(r, fields, env).Some? && FieldsLinked(TypeFields(r, fields, env).value)
    decreases fields, 0
  {
    hide TypeEndpoint, EndpointType, Linked;
    if fields != [] {
      EndpointsAgree(r, fields[0].value, env);
      FieldsAgree(r, expected, fields[1..], seen + {fields[0].name}, env);
    }
  }

  lemma {:induction false} InlineAgrees(r: Rules, stages: seq<Stage>, t: Ty, env: Env)
    ensures TypeInline(r, stages, t, env).Some? <==> InlineType(r, stages, t, env).Some?
    ensures TypeInline(r, stages, t, env).Some? ==>
      var typed := TypeInline(r, stages, t, env).value;
      LastOutput(t, typed) == InlineType(r, stages, t, env).value && StagesLinked(t, typed)
    decreases stages, 0
  {
    hide TypeStage, StageType, StageLinked;
    if stages != [] {
      StagesAgree(r, true, stages[0], t, false, env);
      var next := StageType(r, true, stages[0], t, env);
      BindingStages(r, true, stages[0], t, env);
      assert SameStage(r, true, stages[0], t, false, env);
      if next.Some? { InlineAgrees(r, stages[1..], next.value, env); }
    }
  }

  lemma BindingStages(r: Rules, inline: bool, s: Stage, t: Ty, env: Env)
    ensures s.Bind? || s.FaultMap? || (s.Value? && !s.endpoint.Name?) ==> StageType(r, inline, s, t, env).None?
  {}

  /** On a stage that hands a value on, wherever it stands. */
  ghost predicate SameStage(r: Rules, inline: bool, s: Stage, t: Ty, isLast: bool, env: Env)
  {
    var typed := TypeStage(r, inline, s, t, isLast, env);
    var checked := StageType(r, inline, s, t, env);
    if typed.None? then checked.None?
    else
      && checked.Some? && typed.value.1 == env && typed.value.0.input == t
      && typed.value.0.output == checked.value && StageLinked(typed.value.0)
  }

  lemma {:induction false} StagesAgree(r: Rules, inline: bool, s: Stage, t: Ty, isLast: bool, env: Env)
    requires !isLast || (!s.Bind? && !s.FaultMap?)
    ensures SameStage(r, inline, s, t, isLast, env)
    decreases s, 1
  {
    hide SameStage;
    if s.Match? {
      MatchStagesAgree(r, inline, s, t, isLast, env);
    } else if s.Repeat? || s.Reduce? || s.Scan? {
      OperandStagesAgree(r, inline, s, t, isLast, env);
    } else {
      PlainStagesAgree(r, inline, s, t, isLast, env);
    }
  }

  lemma {:induction false} MatchStagesAgree(r: Rules, inline: bool, s: Stage, t: Ty, isLast: bool, env: Env)
    requires s.Match?
    ensures SameStage(r, inline, s, t, isLast, env)
    decreases s, 0
  {
    hide *;
    if s.arms != [] { ArmsAgree(r, inline, None, s.arms, t, env); }
    MatchFollows(r, inline, s, t, isLast, env);
  }

  /** The arms decide about the stage. */
  lemma MatchFollows(r: Rules, inline: bool, s: Stage, t: Ty, isLast: bool, env: Env)
    requires s.Match?
    requires s.arms != [] ==>
      var typed, checked := TypeArms(r, inline, None, s.arms, t, env), ArmsType(r, inline, None, s.arms, t, env);
      if typed.None? then checked.None? else typed.value.1 == checked && ArmsLinked(typed.value.0)
    ensures SameStage(r, inline, s, t, isLast, env)
  {
    MatchUnfolds(r, inline, s, t, isLast, env);
    var typed := TypeStage(r, inline, s, t, isLast, env);
    if typed.Some? { MatchLinked(typed.value.0); }
    hide TypeStage, StageType, TypeArms, ArmsType, StageLinked, ArmsLinked;
  }

  lemma MatchLinked(s: TypedStage)
    requires s.kind.Match?
    ensures StageLinked(s) <==> ArmsLinked(s.kind.arms)
  {
    hide ArmsLinked;
  }

  lemma MatchUnfolds(r: Rules, inline: bool, s: Stage, t: Ty, isLast: bool, env: Env)
    requires s.Match?
    ensures
      var typed := TypeArms(r, inline, None, s.arms, t, env);
      TypeStage(r, inline, s, t, isLast, env) ==
      if s.arms == [] || !s.arms[|s.arms| - 1].guard.Fallback? || typed.None? || typed.value.1.None? then None
      else Some((TypedStage(t, typed.value.1.value, StageKind.Match(typed.value.0)), env))
    ensures
      StageType(r, inline, s, t, env) ==
      if s.arms == [] || !s.arms[|s.arms| - 1].guard.Fallback? then None else ArmsType(r, inline, None, s.arms, t, env)
  {
    hide TypeArms, ArmsType;
  }

  lemma {:induction false} OperandStagesAgree(r: Rules, inline: bool, s: Stage, t: Ty, isLast: bool, env: Env)
    requires s.Repeat? || s.Reduce? || s.Scan?
    ensures SameStage(r, inline, s, t, isLast, env)
    decreases s, 0
  {
    hide TypeEndpoint, EndpointType, Linked, Expects;
    EndpointsAgree(r, if s.Repeat? then s.count else s.identity, env);
  }

  lemma PlainStagesAgree(r: Rules, inline: bool, s: Stage, t: Ty, isLast: bool, env: Env)
    requires !s.Match? && !s.Repeat? && !s.Reduce? && !s.Scan?
    requires !isLast || (!s.Bind? && !s.FaultMap?)
    ensures SameStage(r, inline, s, t, isLast, env)
  {
    hide TargetTypes, BindAll, BindFaultMap, FieldOfType;
  }

  lemma {:induction false} ArmsAgree(r: Rules, inline: bool, sofar: Option<Ty>, arms: seq<MatchArm>, t: Ty, env: Env)
    requires sofar.Some? || arms != []
    ensures TypeArms(r, inline, sofar, arms, t, env).Some? <==> ArmsType(r, inline, sofar, arms, t, env).Some?
    ensures TypeArms(r, inline, sofar, arms, t, env).Some? ==>
      var typed := TypeArms(r, inline, sofar, arms, t, env).value;
      typed.1 == ArmsType(r, inline, sofar, arms, t, env) && ArmsLinked(typed.0)
    decreases arms, 0
  {
    if arms == [] {
      NoArms(r, inline, sofar, t, env);
      hide *;
    } else {
      hide *;
      ArmAgrees(r, inline, arms[0], t, env);
      ArmsUnfold(r, inline, sofar, arms, t, env);
      var out := ArmType(r, inline, arms[0], t, env);
      if out.Some? {
        var next := Joined(sofar, out.value);
        if next.Some? {
          ArmsAgree(r, inline, next, arms[1..], t, env);
          if ArmsType(r, inline, sofar, arms, t, env).Some? && (|arms| == 1 || !arms[0].guard.Fallback?) {
            ArmsLinkedCons(TypeArm(r, inline, arms[0], t, env).value, TypeArms(r, inline, next, arms[1..], t, env).value.0);
          }
        }
      }
    }
  }

  lemma NoArms(r: Rules, inline: bool, sofar: Option<Ty>, t: Ty, env: Env)
    requires sofar.Some?
    ensures TypeArms(r, inline, sofar, [], t, env) == Some(([], sofar)) && ArmsType(r, inline, sofar, [], t, env) == sofar
    ensures ArmsLinked([])
  {
    hide TypeArm, ArmType, Joined, ArmLinked;
  }

  lemma ArmsLinkedCons(arm: TypedArm, arms: seq<TypedArm>)
    requires ArmLinked(arm) && ArmsLinked(arms)
    ensures ArmsLinked([arm] + arms)
  {
    assert ([arm] + arms)[1..] == arms;
  }

  lemma ArmsUnfold(r: Rules, inline: bool, sofar: Option<Ty>, arms: seq<MatchArm>, t: Ty, env: Env)
    requires arms != []
    ensures
      var out := ArmType(r, inline, arms[0], t, env);
      ArmsType(r, inline, sofar, arms, t, env) ==
      if (arms[0].guard.Fallback? && |arms| > 1) || out.None? || Joined(sofar, out.value).None? then None
      else ArmsType(r, inline, Joined(sofar, out.value), arms[1..], t, env)
    ensures
      var arm := TypeArm(r, inline, arms[0], t, env);
      TypeArms(r, inline, sofar, arms, t, env) ==
      if (arms[0].guard.Fallback? && |arms| > 1) || arm.None? || Joined(sofar, arm.value.output).None? then None
      else
        var rest := TypeArms(r, inline, Joined(sofar, arm.value.output), arms[1..], t, env);
        if rest.None? then None else Some(([arm.value] + rest.value.0, rest.value.1))
  {
    hide TypeArm, ArmType, Joined;
  }

  lemma {:induction false} ArmAgrees(r: Rules, inline: bool, arm: MatchArm, t: Ty, env: Env)
    ensures TypeArm(r, inline, arm, t, env).Some? <==> ArmType(r, inline, arm, t, env).Some?
    ensures TypeArm(r, inline, arm, t, env).Some? ==>
      var typed := TypeArm(r, inline, arm, t, env).value;
      typed.output == ArmType(r, inline, arm, t, env).value && ArmLinked(typed)
    decreases arm, 0
  {
    GuardsAgree(r, inline, arm.guard, t, env);
    TargetsAgree(r, inline, arm.target, t, env);
  }

  lemma {:induction false} GuardsAgree(r: Rules, inline: bool, g: MatchGuard, t: Ty, env: Env)
    ensures TypeGuard(r, inline, g, t, env).Some? <==> GuardFits(r, inline, g, t, env)
    ensures TypeGuard(r, inline, g, t, env).Some? ==> GuardLinked(TypeGuard(r, inline, g, t, env).value)
    decreases g, 0
  {
    if g.Call? { ItemsAgree(r, g.args, env); }
  }

  lemma {:induction false} TargetsAgree(r: Rules, inline: bool, target: MatchTarget, t: Ty, env: Env)
    ensures TypeTarget(r, inline, target, t, env).Some? <==> TargetType(r, inline, target, t, env).Some?
    ensures TypeTarget(r, inline, target, t, env).Some? ==>
      var typed := TypeTarget(r, inline, target, t, env).value;
      && typed.1 == TargetType(r, inline, target, t, env).value && TargetLinked(typed.0)
      && (typed.0.TargetValue? ==> typed.0.value.ty == typed.1)
    decreases target, 0
  {
    if target.ToValue? { EndpointsAgree(r, target.endpoint, env); }
  }

  // ---- Chains ----

  lemma {:induction false} ChainStagesAgree(r: Rules, stages: seq<Stage>, t: Ty, env: Env)
    ensures TypeStages(r, stages, t, env).Some? <==> CheckStages(r, stages, t, env).Some?
    ensures TypeStages(r, stages, t, env).Some? ==>
      var typed := TypeStages(r, stages, t, env).value;
      typed.1 == CheckStages(r, stages, t, env).value && StagesLinked(t, typed.0)
    decreases |stages|
  {
    if stages == [] {
    } else if |stages| == 1 && (stages[0].Bind? || stages[0].FaultMap?) {
      hide *;
      LastStagesAgree(r, stages[0], t, env);
      LastStage(r, stages, t, env);
    } else {
      hide *;
      StagesAgree(r, false, stages[0], t, |stages| == 1, env);
      var next := StageType(r, false, stages[0], t, env);
      if next.Some? { ChainStagesAgree(r, stages[1..], next.value, env); }
      StageBefore(r, stages, t, env);
    }
  }

  /** What holds of the stages after the first holds of all. */
  lemma StageBefore(r: Rules, stages: seq<Stage>, t: Ty, env: Env)
    requires stages != [] && (|stages| > 1 || (!stages[0].Bind? && !stages[0].FaultMap?))
    requires SameStage(r, false, stages[0], t, |stages| == 1, env)
    requires
      var next := StageType(r, false, stages[0], t, env);
      next.Some? ==>
      var typed := TypeStages(r, stages[1..], next.value, env);
      var checked := CheckStages(r, stages[1..], next.value, env);
      && (typed.Some? <==> checked.Some?)
      && (typed.Some? ==> typed.value.1 == checked.value && StagesLinked(next.value, typed.value.0))
    ensures TypeStages(r, stages, t, env).Some? <==> CheckStages(r, stages, t, env).Some?
    ensures TypeStages(r, stages, t, env).Some? ==>
      var typed := TypeStages(r, stages, t, env).value;
      typed.1 == CheckStages(r, stages, t, env).value && StagesLinked(t, typed.0)
  {
    hide TypeStage, StageType, StageLinked, CheckStages, TypeStages, StagesLinked;
    StagesUnfold(r, stages, t, env);
    if CheckStages(r, stages, t, env).Some? {
      var s := TypeStage(r, false, stages[0], t, |stages| == 1, env).value;
      LinkedFrom(t, s.0, TypeStages(r, stages[1..], s.0.output, env).value.0);
    }
  }

  lemma LinkedFrom(t: Ty, s: TypedStage, ss: seq<TypedStage>)
    requires s.input == t && StageLinked(s) && StagesLinked(s.output, ss)
    ensures StagesLinked(t, [s] + ss)
  {
    assert ([s] + ss)[1..] == ss;
  }

  lemma StagesUnfold(r: Rules, stages: seq<Stage>, t: Ty, env: Env)
    requires stages != [] && (|stages| > 1 || (!stages[0].Bind? && !stages[0].FaultMap?))
    ensures
      var next := StageType(r, false, stages[0], t, env);
      CheckStages(r, stages, t, env) == if next.None? then None else CheckStages(r, stages[1..], next.value, env)
    ensures
      var s := TypeStage(r, false, stages[0], t, |stages| == 1, env);
      if s.None? then TypeStages(r, stages, t, env).None?
      else
        var rest := TypeStages(r, stages[1..], s.value.0.output, s.value.1);
        TypeStages(r, stages, t, env) ==
        if rest.None? then None else Some(([s.value.0] + rest.value.0, rest.value.1))
  {
    hide TypeStage, StageType;
  }

  lemma LastStage(r: Rules, stages: seq<Stage>, t: Ty, env: Env)
    requires |stages| == 1
    ensures stages == [stages[0]]
    ensures
      var typed := TypeStage(r, false, stages[0], t, true, env);
      TypeStages(r, stages, t, env) == if typed.None? then None else Some(([typed.value.0], typed.value.1))
    ensures forall s: TypedStage :: StagesLinked(t, [s]) <==> s.input == t && StageLinked(s)
  {
    hide TypeStage, StageLinked;
    var typed := TypeStage(r, false, stages[0], t, true, env);
    assert stages[1..] == [];
    if typed.Some? {
      assert TypeStages(r, stages[1..], typed.value.0.output, typed.value.1) == Some(([], typed.value.1));
      assert [typed.value.0] + [] == [typed.value.0];
    }
    forall s: TypedStage
      ensures StagesLinked(t, [s]) <==> s.input == t && StageLinked(s)
    {
      assert [s][1..] == [];
    }
  }

  lemma LastStagesAgree(r: Rules, s: Stage, t: Ty, env: Env)
    requires s.Bind? || s.FaultMap?
    ensures
      var typed := TypeStage(r, false, s, t, true, env);
      var checked := CheckStages(r, [s], t, env);
      && (typed.Some? <==> checked.Some?)
      && (typed.Some? ==> typed.value.1 == checked.value && typed.value.0.input == t && StageLinked(typed.value.0))
  {}

  /** A callable's chains are accepted by both or by neither, and bind the same names. */
  lemma {:induction false} ChainsAgree(r: Rules, chains: seq<Chain>, env: Env)
    ensures TypeChains(r, chains, env).Some? <==> CheckChains(r, chains, env).Some?
    ensures TypeChains(r, chains, env).Some? ==>
      var typed := TypeChains(r, chains, env).value;
      typed.1 == CheckChains(r, chains, env).value && ChainsLinked(typed.0)
    decreases |chains|
  {
    hide TypeEndpoint, EndpointType, TypeStages, CheckStages, Linked, StagesLinked;
    if chains != [] {
      EndpointsAgree(r, chains[0].source, env);
      var t := EndpointType(r, chains[0].source, env);
      if t.Some? {
        ChainStagesAgree(r, chains[0].stages, t.value, env);
        var next := CheckStages(r, chains[0].stages, t.value, env);
        if next.Some? { ChainsAgree(r, chains[1..], next.value); }
      }
    }
  }

  lemma {:induction false} InputsHaveTypes(r: Rules, ports: seq<Port>, env: Env)
    requires InputEnv(r, ports, env).Some?
    ensures TypePorts(r, ports).Some?
    decreases |ports|
  {
    if ports != [] { InputsHaveTypes(r, ports[1..], env[ports[0].name := r.declared(ports[0].ty).value]); }
  }

  lemma {:induction false} OutputsHaveTypes(r: Rules, ports: seq<Port>, env: Env)
    requires OutputsFit(r, ports, env)
    ensures TypePorts(r, ports).Some?
    decreases |ports|
  {
    if ports != [] { OutputsHaveTypes(r, ports[1..], env); }
  }

  /** The two checkers accept the same callables, but the second needs a signature in the symbol table as well. */
  lemma CallablesAgree(r: Rules, c: Callable, isProgram: bool)
    ensures TypeCallable(r, c, isProgram).Some? <==> CheckCallable(r, c, isProgram).Some? && r.listed(c.name).Some?
    ensures TypeCallable(r, c, isProgram).Some? ==>
      var typed := TypeCallable(r, c, isProgram).value;
      && typed.1 == CheckCallable(r, c, isProgram).value && ChainsLinked(typed.0.chains)
      && typed.0.pure == r.listed(c.name).value && typed.0.id == r.symbol(c.name)
  {
    hide TypeChains, CheckChains, ChainsLinked;
    var start := InputEnv(r, c.inputs, map[]);
    if start.Some? {
      InputsHaveTypes(r, c.inputs, map[]);
      ChainsAgree(r, c.chains, start.value);
      var env := CheckChains(r, c.chains, start.value);
      if env.Some? && OutputsFit(r, c.outputs, env.value) { OutputsHaveTypes(r, c.outputs, env.value); }
    }
  }
}
