/** The proof that emitted code returns the value of its graph. */
module SsaCorrect {
  import opened Ast
  import opened Types
  import opened Typed
  import opened SsaEmission
  import opened SsaForm
  import opened SsaMeaning

  // ---- Single instructions ----

  lemma AddedValue(mc: Machine, st: State, i: Instr, ty: Ty, input: LValue)
    requires i.dest == st.temp
    ensures ValueIn(mc, Add(st, i), TextValue(Temp(st.temp), ty), input)
         == TValue(Step(mc, i, Execute(mc, st.code, input), input), ty)
  {
    ExecuteLast(mc, st.code, i, input);
  }

  lemma ExtractMeans(mc: Machine, st: State, v: TextValue, index: nat, ty: Ty, input: LValue)
    requires ExtractField(st, v, index).Some?
    ensures
      var r := ExtractField(st, v, index).value;
      ValueIn(mc, r.1, TextValue(r.0, ty), input) == TValue(ItemAt(ValueIn(mc, st, v, input).value, index), ty)
  {
    AddedValue(mc, st, Extract(st.temp, v.ty, v.operand, index), ty, input);
  }

  lemma InvokeMeans(
    mc: Machine, st: State, callee: Callee, output: Ty, args: seq<TextValue>, vals: seq<LValue>, input: LValue)
    requires |vals| == |args|
    requires forall i :: 0 <= i < |args| ==> ValueIn(mc, st, args[i], input).value == vals[i]
    ensures
      var r := InvokeHelper(st, callee, output, args);
      ValueIn(mc, r.1, r.0, input) == TValue(mc.call(callee, vals), output)
  {
    var declared := Declare(st, callee, output, seq(|args|, i requires 0 <= i < |args| => args[i].ty));
    AddedValue(mc, declared, Invoke(st.temp, output, callee, args), output, input);
    var m := Execute(mc, st.code, input);
    assert seq(|args|, k requires 0 <= k < |args| => Fetch(args[k].operand, m, input)) == vals;
  }

  lemma NumericNames(name: string, t: Ty)
    requires NumericInstruction(name, t).Some? && name != "min" && name != "max"
    ensures OperationOf(NumericInstruction(name, t).value, t) == Some(name)
  {}

  lemma NumericMeans(mc: Machine, st: State, name: string, v: TextValue, output: Ty, input: LValue)
    requires Ready(st) && Known(v.operand, st) && IsNumeric(name, v.ty, output)
    ensures
      var r := EmitNumeric(st, name, v, output);
      var value := ValueIn(mc, st, v, input).value;
      ValueIn(mc, r.1, r.0, input) == TValue(Numeric(mc, name, output, ItemAt(value, 0), ItemAt(value, 1)), output)
  {
    hide Ready, Execute;
    var value := ValueIn(mc, st, v, input).value;
    ExtractGrows(st, v, 0);
    ExtractMeans(mc, st, v, 0, output, input);
    var left := ExtractField(st, v, 0).value;
    ValueKept(mc, st, left.1, v, input);
    ExtractGrows(left.1, v, 1);
    ExtractMeans(mc, left.1, v, 1, output, input);
    var right := ExtractField(left.1, v, 1).value;
    ValueKept(mc, left.1, right.1, TextValue(left.0, output), input);
    var m := Execute(mc, right.1.code, input);
    assert Fetch(left.0, m, input) == ItemAt(value, 0) && Fetch(right.0, m, input) == ItemAt(value, 1);
    if name == "min" || name == "max" {
      ChoiceMeans(mc, right.1, name, output, left.0, right.0, input);
    } else {
      NumericNames(name, output);
      AddedValue(mc, right.1, Arith(right.1.temp, NumericInstruction(name, output).value, output, left.0, right.0), output, input);
    }
  }

  /** A comparison and a choice make a minimum or a maximum. */
  lemma ChoiceMeans(mc: Machine, st: State, name: string, t: Ty, l: Operand, r: Operand, input: LValue)
    requires (name == "min" || name == "max") && (IsInt(t) || IsFloat(t)) && Known(l, st) && Known(r, st)
    ensures
      var order := if t == F32 || t == F64 then "o" else "s";
      var compare := Compare(st.temp + 1, order + (if name == "min" then "lt" else "gt"), t, l, r);
      var code := st.code + [compare] + [Choose(st.temp, t, Temp(st.temp + 1), l, r)];
      var m := Execute(mc, st.code, input);
      Fetch(Temp(st.temp), Execute(mc, code, input), input) == Numeric(mc, name, t, Fetch(l, m, input), Fetch(r, m, input))
  {
    hide Execute;
    var order := if t == F32 || t == F64 then "o" else "s";
    var compare := Compare(st.temp + 1, order + (if name == "min" then "lt" else "gt"), t, l, r);
    assert "o" + "lt" == "olt" && "o" + "gt" == "ogt" && "s" + "lt" == "slt" && "s" + "gt" == "sgt";
    var m := Execute(mc, st.code, input);
    var m' := Execute(mc, st.code + [compare], input);
    ExecuteLast(mc, st.code, compare, input);
    assert Fetch(l, m', input) == Fetch(l, m, input) && Fetch(r, m', input) == Fetch(r, m, input);
    ExecuteLast(mc, st.code + [compare], Choose(st.temp, t, Temp(st.temp + 1), l, r), input);
  }

  lemma CallMeans(cg: Codegen, mc: Machine, st: State, name: string, v: TextValue, input: LValue)
    requires Ready(st) && Known(v.operand, st)
    ensures
      var r := EmitCall(cg, st, name, v);
      var graph := GraphCall(cg, mc, name, ValueIn(mc, st, v, input));
      if r.None? then graph.None? else graph == Some(ValueIn(mc, r.value.1, r.value.0, input))
  {
    hide Ready, Execute, IsNumeric, EmitNumeric;
    var value := ValueIn(mc, st, v, input).value;
    if cg.outputType(name, v.ty).Some? {
      var output := cg.outputType(name, v.ty).value;
      if name in cg.callables {
        var i := Invoke(st.temp, output, Callee.User(name), [v]);
        AddedValue(mc, st, i, output, input);
        var m := Execute(mc, st.code, input);
        assert seq(|i.args|, k requires 0 <= k < |i.args| => Fetch(i.args[k].operand, m, input)) == [value];
      } else if name in cg.foreign {
        InvokeMeans(mc, st, Callee.Foreign(cg.foreign[name]), output, [v], [value], input);
      } else if IsNumeric(cg.canonical(name), v.ty, output) {
        NumericMeans(mc, st, cg.canonical(name), v, output, input);
      } else {
        InvokeMeans(mc, st, Callee.Builtin(cg.canonical(name)), output, [v], [value], input);
      }
    }
  }

  // ---- Tuples ----

  /** After `done` insertions the first fields are set. */
  predicate Filled(agg: LValue, vs: seq<LValue>, done: nat)
  {
    done <= |vs| &&
    if done == 0 then agg == PoisonL || (agg.AggL? && |agg.items| == |vs|)
    else agg.AggL? && |agg.items| == |vs| && agg.items[..done] == vs[..done]
  }

  lemma FieldFilled(ty: Ty, agg: LValue, vs: seq<LValue>, done: nat)
    requires ty.Tuple? && |ty.items| == |vs| && done < |vs| && Filled(agg, vs, done)
    ensures Filled(WithField(ty, agg, vs[done], done), vs, done + 1)
  {}

  ghost predicate HasValues(mc: Machine, st: State, values: seq<TextValue>, vs: seq<LValue>, input: LValue)
  {
    |values| == |vs| && forall i :: 0 <= i < |vs| ==> ValueIn(mc, st, values[i], input).value == vs[i]
  }

  lemma ValuesKept(mc: Machine, st: State, st': State, values: seq<TextValue>, vs: seq<LValue>, input: LValue)
    requires Ready(st) && Grows(st, st') && AllKnown(values, st) && HasValues(mc, st, values, vs, input)
    ensures HasValues(mc, st', values, vs, input) && AllKnown(values, st')
  {
    forall i | 0 <= i < |vs|
      ensures ValueIn(mc, st', values[i], input).value == vs[i]
    {
      ValueKept(mc, st, st', values[i], input);
    }
  }

  lemma {:induction false} InsertAllMeans(
    mc: Machine, st: State, ty: Ty, values: seq<TextValue>, vs: seq<LValue>, done: nat, current: Operand, input: LValue)
    requires Ready(st) && AllKnown(values, st) && Known(current, st) && HasValues(mc, st, values, vs, input)
    requires ty.Tuple? && |ty.items| == |vs| > 0 && done <= |vs|
    requires Filled(Fetch(current, Execute(mc, st.code, input), input), vs, done)
    ensures
      var r := InsertAll(st, ty, values, done, current);
      Fetch(r.0, Execute(mc, r.1.code, input), input) == AggL(vs)
    decreases |vs| - done
  {
    hide Ready, Execute, WithField;
    if done < |vs| {
      var i := Insert(st.temp, ty, current, values[done].operand, done);
      var next := Add(st, i);
      Added(st, i);
      AddedValue(mc, st, i, ty, input);
      FieldFilled(ty, Fetch(current, Execute(mc, st.code, input), input), vs, done);
      ValuesKept(mc, st, next, values, vs, input);
      InsertAllMeans(mc, next, ty, values, vs, done + 1, Temp(st.temp), input);
    } else {
      var agg := Fetch(current, Execute(mc, st.code, input), input);
      assert agg.items[..done] == agg.items && vs[..done] == vs;
    }
  }

  // ---- Endpoints and stages ----

  lemma {:induction false} EndpointMeans(
    cg: Codegen, mc: Machine, st: State, e: TypedEndpoint, env: TextEnv, input: LValue)
    requires Ready(st) && EnvKnown(env, st)
    requires GraphEndpoint(cg, mc, e, EnvIn(mc, st, env, input)).Some?
    ensures EmitEndpoint(cg, st, e, env).Some?
    ensures
      var r := EmitEndpoint(cg, st, e, env).value;
      ValueIn(mc, r.1, r.0, input) == GraphEndpoint(cg, mc, e, EnvIn(mc, st, env, input)).value
    decreases e, 0
  {
    hide Ready, Execute, EmitItems, EmitInline, GraphItems, GraphInline;
    match e.kind
    case Tuple(items) =>
      ItemsMean(cg, mc, st, items, env, input);
      ItemsGrow(cg, st, items, env);
      var r := EmitItems(cg, st, items, env).value;
      InsertAllMeans(mc, r.1, e.ty, r.0, GraphItems(cg, mc, items, EnvIn(mc, st, env, input)).value, 0, Poison, input);
    case Eval(source, stages) =>
      EndpointMeans(cg, mc, st, source, env, input);
      EndpointGrows(cg, st, source, env);
      var r := EmitEndpoint(cg, st, source, env).value;
      EnvKept(mc, st, r.1, env, input);
      InlineMeans(cg, mc, r.1, stages, r.0, env, input);
    case _ =>
  }

  lemma {:induction false} ItemsMean(
    cg: Codegen, mc: Machine, st: State, items: seq<TypedEndpoint>, env: TextEnv, input: LValue)
    requires Ready(st) && EnvKnown(env, st)
    requires GraphItems(cg, mc, items, EnvIn(mc, st, env, input)).Some?
    ensures EmitItems(cg, st, items, env).Some?
    ensures
      var r := EmitItems(cg, st, items, env).value;
      HasValues(mc, r.1, r.0, GraphItems(cg, mc, items, EnvIn(mc, st, env, input)).value, input)
    decreases items, 0
  {
    hide Ready, Execute, EmitEndpoint, GraphEndpoint, EnvIn;
    if items != [] {
      EndpointMeans(cg, mc, st, items[0], env, input);
      EndpointGrows(cg, st, items[0], env);
      var first := EmitEndpoint(cg, st, items[0], env).value;
      EnvKept(mc, st, first.1, env, input);
      ItemsMean(cg, mc, first.1, items[1..], env, input);
      ItemsGrow(cg, first.1, items[1..], env);
      var rest := EmitItems(cg, first.1, items[1..], env).value;
      ValueKept(mc, first.1, rest.1, first.0, input);
    }
  }

  lemma {:induction false} InlineMeans(
    cg: Codegen, mc: Machine, st: State, stages: seq<TypedStage>, v: TextValue, env: TextEnv, input: LValue)
    requires Ready(st) && EnvKnown(env, st) && Known(v.operand, st)
    requires GraphInline(cg, mc, stages, ValueIn(mc, st, v, input), EnvIn(mc, st, env, input)).Some?
    ensures EmitInline(cg, st, stages, v, env).Some?
    ensures
      var r := EmitInline(cg, st, stages, v, env).value;
      ValueIn(mc, r.1, r.0, input)
      == GraphInline(cg, mc, stages, ValueIn(mc, st, v, input), EnvIn(mc, st, env, input)).value
    decreases stages, 0
  {
    hide Ready, Execute, EmitStage, GraphStage, EnvIn, ValueIn;
    if stages != [] {
      StageMeans(cg, mc, st, stages[0], v, env, input);
      StageGrows(cg, st, stages[0], v, env);
      var r := EmitStage(cg, st, stages[0], v, env).value;
      EnvKept(mc, st, r.1, env, input);
      InlineMeans(cg, mc, r.1, stages[1..], r.0, env, input);
    }
  }

  lemma {:induction false} StageMeans(
    cg: Codegen, mc: Machine, st: State, s: TypedStage, v: TextValue, env: TextEnv, input: LValue)
    requires Ready(st) && EnvKnown(env, st) && Known(v.operand, st)
    requires GraphStage(cg, mc, s, ValueIn(mc, st, v, input), EnvIn(mc, st, env, input)).Some?
    ensures EmitStage(cg, st, s, v, env).Some?
    ensures
      var r := EmitStage(cg, st, s, v, env).value;
      ValueIn(mc, r.1, r.0, input) == GraphStage(cg, mc, s, ValueIn(mc, st, v, input), EnvIn(mc, st, env, input)).value
    decreases s, 0
  {
    hide Ready, Execute, EmitEndpoint, GraphEndpoint, InvokeHelper, EnvIn, MapType, FilterType, ReduceType;
    var value := ValueIn(mc, st, v, input).value;
    match s.kind
    case Call(name, _) => CallMeans(cg, mc, st, name, v, input);
    case Map(name) => InvokeMeans(mc, st, Helper("map", name), MapType(cg, name, v.ty).value, [v], [value], input);
    case Filter(name) => InvokeMeans(mc, st, Helper("filter", name), FilterType(cg, name, v.ty).value, [v], [value], input);
    case Repeat(node, count) =>
      OperandMeans(cg, mc, st, count, v, env, input);
      var n := EmitEndpoint(cg, st, count, env).value;
      InvokeMeans(mc, n.1, Helper("repeat", node), cg.outputType(node, v.ty).value, [v, n.0.(ty := I64)],
                  [value, ValueIn(mc, n.1, n.0, input).value], input);
    case Reduce(op, identity) =>
      OperandMeans(cg, mc, st, identity, v, env, input);
      var i := EmitEndpoint(cg, st, identity, env).value;
      InvokeMeans(mc, i.1, Helper("reduce", op), ReduceType(cg, op, v.ty, i.0.ty).value, [v, i.0],
                  [value, ValueIn(mc, i.1, i.0, input).value], input);
    case Scan(op, identity) =>
      OperandMeans(cg, mc, st, identity, v, env, input);
      var i := EmitEndpoint(cg, st, identity, env).value;
      InvokeMeans(mc, i.1, Helper("scan", op), Ty.Seq(ReduceType(cg, op, v.ty, i.0.ty).value), [v, i.0],
                  [value, ValueIn(mc, i.1, i.0, input).value], input);
    case _ =>
  }

  /** The operand of a stage is evaluated after the value that flows into it, which stays. */
  lemma {:induction false} OperandMeans(
    cg: Codegen, mc: Machine, st: State, e: TypedEndpoint, v: TextValue, env: TextEnv, input: LValue)
    requires Ready(st) && EnvKnown(env, st) && Known(v.operand, st)
    requires GraphEndpoint(cg, mc, e, EnvIn(mc, st, env, input)).Some?
    ensures EmitEndpoint(cg, st, e, env).Some?
    ensures
      var r := EmitEndpoint(cg, st, e, env).value;
      && ValueIn(mc, r.1, r.0, input) == GraphEndpoint(cg, mc, e, EnvIn(mc, st, env, input)).value
      && ValueIn(mc, r.1, v, input) == ValueIn(mc, st, v, input)
    decreases e, 1
  {
    EndpointMeans(cg, mc, st, e, env, input);
    EndpointGrows(cg, st, e, env);
    ValueKept(mc, st, EmitEndpoint(cg, st, e, env).value.1, v, input);
  }

  // ---- Bindings, chains and callables ----

  lemma {:induction false} BindMeans(
    mc: Machine, st: State, t: BindingTarget, v: TextValue, env: TextEnv, input: LValue)
    requires Ready(st) && EnvKnown(env, st) && Known(v.operand, st)
    requires GraphBind(t, ValueIn(mc, st, v, input), EnvIn(mc, st, env, input)).Some?
    ensures EmitBind(st, t, v, env).Some?
    ensures
      var r := EmitBind(st, t, v, env).value;
      EnvIn(mc, r.1, r.0, input) == GraphBind(t, ValueIn(mc, st, v, input), EnvIn(mc, st, env, input)).value
    decreases t, 0
  {
    hide Ready, Execute, EmitBinds, GraphBinds;
    match t
    case Drop =>
    case Bound(x) => assert EnvIn(mc, st, env[x := v], input) == EnvIn(mc, st, env, input)[x := ValueIn(mc, st, v, input)];
    case Both(items) => BindsMean(mc, st, items, v, 0, env, input);
  }

  lemma {:induction false} BindsMean(
    mc: Machine, st: State, ts: seq<BindingTarget>, v: TextValue, index: nat, env: TextEnv, input: LValue)
    requires v.ty.Tuple? && index + |ts| == |v.ty.items|
    requires Ready(st) && EnvKnown(env, st) && Known(v.operand, st)
    requires GraphBinds(ts, ValueIn(mc, st, v, input), index, EnvIn(mc, st, env, input)).Some?
    ensures EmitBinds(st, ts, v, index, env).Some?
    ensures
      var r := EmitBinds(st, ts, v, index, env).value;
      EnvIn(mc, r.1, r.0, input) == GraphBinds(ts, ValueIn(mc, st, v, input), index, EnvIn(mc, st, env, input)).value
    decreases ts, 0
  {
    hide Ready, Execute, EmitBind, GraphBind, EnvIn;
    if ts != [] {
      ExtractGrows(st, v, index);
      var field := ExtractField(st, v, index).value;
      var item := TextValue(field.0, v.ty.items[index]);
      ExtractMeans(mc, st, v, index, item.ty, input);
      EnvKept(mc, st, field.1, env, input);
      BindMeans(mc, field.1, ts[0], item, env, input);
      BindGrows(field.1, ts[0], item, env);
      var r := EmitBind(field.1, ts[0], item, env).value;
      ValueKept(mc, st, r.1, v, input);
      BindsMean(mc, r.1, ts[1..], v, index + 1, r.0, input);
    }
  }

  lemma FaultMapMeans(
    mc: Machine, st: State, node: string, ok: string, fault: string, ty: Ty, v: TextValue, env: TextEnv, input: LValue)
    requires Ready(st) && EnvKnown(env, st) && Known(v.operand, st) && ty.Tuple? && |ty.items| == 2
    ensures
      var parts := InvokeHelper(st, Helper("fault_map", node), ty, [v]);
      var oks := ExtractField(parts.1, parts.0, 0).value;
      var faults := ExtractField(oks.1, parts.0, 1).value;
      var whole := mc.call(Helper("fault_map", node), [ValueIn(mc, st, v, input).value]);
      var env' := env[ok := TextValue(oks.0, ty.items[0])][fault := TextValue(faults.0, ty.items[1])];
      && Grows(st, faults.1) && EnvKnown(env', faults.1)
      && EnvIn(mc, faults.1, env', input)
      == EnvIn(mc, st, env, input)[ok := TValue(ItemAt(whole, 0), ty.items[0])][fault := TValue(ItemAt(whole, 1), ty.items[1])]
  {
    hide Ready, Execute;
    FaultMapGrows(st, node, ty, v);
    InvokeMeans(mc, st, Helper("fault_map", node), ty, [v], [ValueIn(mc, st, v, input).value], input);
    var parts := InvokeHelper(st, Helper("fault_map", node), ty, [v]);
    ExtractGrows(parts.1, parts.0, 0);
    ExtractMeans(mc, parts.1, parts.0, 0, ty.items[0], input);
    var oks := ExtractField(parts.1, parts.0, 0).value;
    ValueKept(mc, parts.1, oks.1, parts.0, input);
    ExtractGrows(oks.1, parts.0, 1);
    ExtractMeans(mc, oks.1, parts.0, 1, ty.items[1], input);
    var faults := ExtractField(oks.1, parts.0, 1).value;
    ValueKept(mc, oks.1, faults.1, TextValue(oks.0, ty.items[0]), input);
    EnvKept(mc, st, faults.1, env, input);
  }

  lemma {:induction false} StagesMean(
    cg: Codegen, mc: Machine, st: State, stages: seq<TypedStage>, v: TextValue, env: TextEnv, input: LValue)
    requires Ready(st) && EnvKnown(env, st) && Known(v.operand, st)
    requires GraphStages(cg, mc, stages, ValueIn(mc, st, v, input), EnvIn(mc, st, env, input)).Some?
    ensures EmitStages(cg, st, stages, v, env).Some?
    ensures
      var r := EmitStages(cg, st, stages, v, env).value;
      EnvIn(mc, r.1, r.0, input) == GraphStages(cg, mc, stages, ValueIn(mc, st, v, input), EnvIn(mc, st, env, input)).value
    decreases stages, 0
  {
    hide Ready, Execute, EmitStage, GraphStage, EmitBind, GraphBind, InvokeHelper, ExtractField, EnvIn, EnvKnown,
         FaultMapType;
    if stages != [] {
      match stages[0].kind
      case Bind(target) =>
        BindMeans(mc, st, target, v, env, input);
        BindGrows(st, target, v, env);
        var r := EmitBind(st, target, v, env).value;
        ValueKept(mc, st, r.1, v, input);
        StagesMean(cg, mc, r.1, stages[1..], v, r.0, input);
      case FaultMap(node, ok, fault) =>
        FaultMapHasType(cg, node, v.ty);
        var ty := FaultMapType(cg, node, v.ty).value;
        FaultMapMeans(mc, st, node, ok, fault, ty, v, env, input);
        var parts := InvokeHelper(st, Helper("fault_map", node), ty, [v]);
        FaultMapFields(st, node, ty, v);
        var oks := ExtractField(parts.1, parts.0, 0).value;
        var faults := ExtractField(oks.1, parts.0, 1).value;
        ValueKept(mc, st, faults.1, v, input);
        StagesMean(cg, mc, faults.1, stages[1..], v,
                   env[ok := TextValue(oks.0, ty.items[0])][fault := TextValue(faults.0, ty.items[1])], input);
      case _ =>
        StageMeans(cg, mc, st, stages[0], v, env, input);
        StageGrows(cg, st, stages[0], v, env);
        var r := EmitStage(cg, st, stages[0], v, env).value;
        EnvKept(mc, st, r.1, env, input);
        StagesMean(cg, mc, r.1, stages[1..], r.0, env, input);
    }
  }

  lemma FaultMapHasType(cg: Codegen, node: string, ty: Ty)
    requires FaultMapType(cg, node, ty).Some?
    ensures FaultMapType(cg, node, ty).value.Tuple? && |FaultMapType(cg, node, ty).value.items| == 2
  {}

  lemma FaultMapFields(st: State, node: string, ty: Ty, v: TextValue)
    requires ty.Tuple? && |ty.items| == 2
    ensures
      var parts := InvokeHelper(st, Helper("fault_map", node), ty, [v]);
      var oks := ExtractField(parts.1, parts.0, 0);
      oks.Some? && ExtractField(oks.value.1, parts.0, 1).Some?
  {}

  lemma {:induction false} ChainsMean(
    cg: Codegen, mc: Machine, st: State, chains: seq<TypedChain>, env: TextEnv, input: LValue)
    requires Ready(st) && EnvKnown(env, st)
    requires GraphChains(cg, mc, chains, EnvIn(mc, st, env, input)).Some?
    ensures EmitChains(cg, st, chains, env).Some?
    ensures
      var r := EmitChains(cg, st, chains, env).value;
      EnvIn(mc, r.1, r.0, input) == GraphChains(cg, mc, chains, EnvIn(mc, st, env, input)).value
    decreases chains
  {
    hide Ready, Execute, EmitEndpoint, GraphEndpoint, EmitStages, GraphStages, EnvIn, EnvKnown;
    if chains != [] {
      EndpointMeans(cg, mc, st, chains[0].source, env, input);
      EndpointGrows(cg, st, chains[0].source, env);
      var source := EmitEndpoint(cg, st, chains[0].source, env).value;
      EnvKept(mc, st, source.1, env, input);
      StagesMean(cg, mc, source.1, chains[0].stages, source.0, env, input);
      StagesGrow(cg, source.1, chains[0].stages, source.0, env);
      var r := EmitStages(cg, source.1, chains[0].stages, source.0, env).value;
      ChainsMean(cg, mc, r.1, chains[1..], r.0, input);
    }
  }

  lemma {:induction false} InputsMean(
    mc: Machine, st: State, ports: seq<TypedPort>, ty: Ty, index: nat, env: TextEnv, input: LValue)
    requires Ready(st) && EnvKnown(env, st) && ty.Tuple? && index <= |ports|
    ensures
      var r := EmitInputs(st, ports, ty, index, env);
      EnvIn(mc, r.1, r.0, input) == GraphInputs(ports, input, ty, index, EnvIn(mc, st, env, input))
    decreases |ports| - index
  {
    hide Ready, Execute;
    if index < |ports| && index < |ty.items| {
      var i := Extract(st.temp, ty, Input, index);
      var next := Add(st, i);
      var v := TextValue(Temp(st.temp), ty.items[index]);
      Added(st, i);
      AddedValue(mc, st, i, ty.items[index], input);
      EnvKept(mc, st, next, env, input);
      assert EnvIn(mc, next, env[ports[index].name := v], input)
          == EnvIn(mc, st, env, input)[ports[index].name := TValue(ItemAt(input, index), ty.items[index])];
      InputsMean(mc, next, ports, ty, index + 1, env[ports[index].name := v], input);
    }
  }

  lemma {:induction false} OutputsMean(mc: Machine, st: State, ports: seq<TypedPort>, env: TextEnv, input: LValue)
    requires GraphOutputs(ports, EnvIn(mc, st, env, input)).Some?
    ensures OutputValues(ports, env).Some?
    ensures HasValues(mc, st, OutputValues(ports, env).value, GraphOutputs(ports, EnvIn(mc, st, env, input)).value, input)
  {
    if ports != [] { OutputsMean(mc, st, ports[1..], env, input); }
  }

  lemma EnteredMeans(mc: Machine, c: TypedCallable, input: Ty, declared: set<Declaration>, v: LValue)
    requires |c.inputs| > 1 ==> input.Tuple?
    ensures EnvIn(mc, Entered(c, input, declared).1, Entered(c, input, declared).0, v) == GraphEntered(c, input, v)
  {
    if |c.inputs| > 1 {
      InputsMean(mc, State(0, [], declared), c.inputs, input, 0, map[], v);
      assert EnvIn(mc, State(0, [], declared), map[], v) == map[];
    }
  }

  lemma ReturnedMeans(mc: Machine, st: State, ports: seq<TypedPort>, env: TextEnv, output: Ty, input: LValue)
    requires Ready(st) && EnvKnown(env, st)
    requires GraphReturned(ports, EnvIn(mc, st, env, input), output).Some?
    ensures EmitOutputs(st, ports, env, output).Some?
    ensures
      var r := EmitOutputs(st, ports, env, output).value;
      ValueIn(mc, r.1, r.0, input).value == GraphReturned(ports, EnvIn(mc, st, env, input), output).value
  {
    hide Ready, Execute, EnvIn;
    OutputsMean(mc, st, ports, env, input);
    OutputsKnown(ports, env, st);
    if |ports| == 1 { assert OutputValues(ports[1..], env) == Some([]); }
    if |ports| > 1 {
      InsertAllMeans(mc, st, output, OutputValues(ports, env).value, GraphOutputs(ports, EnvIn(mc, st, env, input)).value,
                     0, Poison, input);
    }
  }

  /** Whatever calls and arithmetic mean, the emitted function returns the value of the graph. */
  lemma EmittedCodeMeansGraph(
    cg: Codegen, mc: Machine, c: TypedCallable, input: Ty, output: Ty, declared: set<Declaration>, v: LValue)
    requires GraphCallable(cg, mc, c, input, output, v).Some?
    ensures EmitCallable(cg, c, input, output, declared).Some?
    ensures
      var f := EmitCallable(cg, c, input, output, declared).value.0;
      Fetch(f.result.operand, Execute(mc, f.code, v), v) == GraphCallable(cg, mc, c, input, output, v).value
  {
    hide Ready, Execute, EmitChains, GraphChains, EnvKnown, EnvIn, Entered, GraphEntered, EmitOutputs, GraphReturned;
    EnteredReady(c, input, declared);
    EnteredMeans(mc, c, input, declared, v);
    var entered := Entered(c, input, declared);
    ChainsMean(cg, mc, entered.1, c.chains, entered.0, v);
    ChainsGrow(cg, entered.1, c.chains, entered.0);
    var body := EmitChains(cg, entered.1, c.chains, entered.0).value;
    ReturnedMeans(mc, body.1, c.outputs, body.0, output, v);
  }
}
