/** Every temporary of an emitted function is assigned once, and before it is used. */
module SsaForm {
  import opened Ast
  import opened Types
  import opened Typed
  import opened SsaEmission

  // ---- Single assignment ----

  function TempsOf(op: Operand): set<nat> { if op.Temp? then {op.n} else {} }

  function Uses(i: Instr): set<nat>
  {
    match i
    case Extract(_, _, agg, _) => TempsOf(agg)
    case Insert(_, _, agg, value, _) => TempsOf(agg) + TempsOf(value)
    case Invoke(_, _, _, args) => ArgTemps(args)
    case Arith(_, _, _, l, r) => TempsOf(l) + TempsOf(r)
    case Compare(_, _, _, l, r) => TempsOf(l) + TempsOf(r)
    case Choose(_, _, c, l, r) => TempsOf(c) + TempsOf(l) + TempsOf(r)
  }

  function ArgTemps(args: seq<TextValue>): set<nat>
  {
    set i | 0 <= i < |args| && args[i].operand.Temp? :: args[i].operand.n
  }

  function Defined(code: seq<Instr>): set<nat> { set i | 0 <= i < |code| :: code[i].dest }

  /** No temporary has two assignments, and every use has one before it. */
  predicate Ssa(code: seq<Instr>)
  {
    && (forall i, j :: 0 <= i < j < |code| ==> code[i].dest != code[j].dest)
    && (forall i :: 0 <= i < |code| ==> Uses(code[i]) <= Defined(code[..i]))
  }

  /** The temporaries below the next free one, and only those, have been assigned. */
  ghost predicate Ready(st: State) { Ssa(st.code) && forall n :: n in Defined(st.code) <==> 0 <= n < st.temp }

  predicate Known(op: Operand, st: State) { op.Temp? ==> op.n < st.temp }

  predicate EnvKnown(env: TextEnv, st: State) { forall x :: x in env ==> Known(env[x].operand, st) }

  predicate AllKnown(vs: seq<TextValue>, st: State) { forall i :: 0 <= i < |vs| ==> Known(vs[i].operand, st) }

  ghost predicate Grows(st: State, st': State) { Ready(st') && st.temp <= st'.temp && st.code <= st'.code }

  lemma Appended(code: seq<Instr>, i: Instr)
    requires Ssa(code) && i.dest !in Defined(code) && Uses(i) <= Defined(code)
    ensures Ssa(code + [i]) && Defined(code + [i]) == Defined(code) + {i.dest}
  {
    var more := code + [i];
    assert forall k :: 0 <= k < |code| ==> code[k].dest in Defined(code);
    assert forall k :: 0 <= k < |code| ==> more[..k] == code[..k];
    assert more[..|code|] == code && more[|code|].dest == i.dest;
    forall n | n in Defined(code)
      ensures n in Defined(more)
    {
      var k :| 0 <= k < |code| && code[k].dest == n;
      assert more[k].dest == n;
    }
  }

  lemma Added(st: State, i: Instr)
    requires Ready(st) && i.dest == st.temp && forall n :: n in Uses(i) ==> n < st.temp
    ensures Grows(st, Add(st, i))
  {
    Appended(st.code, i);
  }

  // ---- Calls and fields ----

  lemma ExtractGrows(st: State, v: TextValue, index: nat)
    requires Ready(st) && Known(v.operand, st) && ExtractField(st, v, index).Some?
    ensures Grows(st, ExtractField(st, v, index).value.1)
    ensures Known(ExtractField(st, v, index).value.0, ExtractField(st, v, index).value.1)
  {
    Added(st, Extract(st.temp, v.ty, v.operand, index));
  }

  lemma InvokeGrows(st: State, callee: Callee, output: Ty, args: seq<TextValue>)
    requires Ready(st) && AllKnown(args, st)
    ensures
      var r := InvokeHelper(st, callee, output, args);
      Grows(st, r.1) && Known(r.0.operand, r.1)
  {
    var declared := Declare(st, callee, output, seq(|args|, i requires 0 <= i < |args| => args[i].ty));
    Added(declared, Invoke(st.temp, output, callee, args));
  }

  /** The comparison comes first and is assigned second. */
  lemma NumericGrows(st: State, name: string, input: TextValue, output: Ty)
    requires Ready(st) && Known(input.operand, st) && IsNumeric(name, input.ty, output)
    ensures
      var r := EmitNumeric(st, name, input, output);
      Grows(st, r.1) && Known(r.0.operand, r.1)
  {
    hide Ready;
    ExtractGrows(st, input, 0);
    var left := ExtractField(st, input, 0).value;
    ExtractGrows(left.1, input, 1);
    var right := ExtractField(left.1, input, 1).value;
    var t := right.1.temp;
    if name == "min" || name == "max" {
      var order := if output == F32 || output == F64 then "o" else "s";
      ChoiceGrows(right.1, order + (if name == "min" then "lt" else "gt"), output, left.0, right.0);
    } else {
      Added(right.1, Arith(t, NumericInstruction(name, output).value, output, left.0, right.0));
    }
  }

  lemma ChoiceGrows(st: State, order: string, t: Ty, l: Operand, r: Operand)
    requires Ready(st) && Known(l, st) && Known(r, st)
    ensures
      var choose := Choose(st.temp, t, Temp(st.temp + 1), l, r);
      Grows(st, st.(temp := st.temp + 2, code := st.code + [Compare(st.temp + 1, order, t, l, r)] + [choose]))
  {
    hide Ready, Grows;
    TwoAdded(st, Compare(st.temp + 1, order, t, l, r), Choose(st.temp, t, Temp(st.temp + 1), l, r));
  }

  lemma TwoAdded(st: State, first: Instr, second: Instr)
    requires Ready(st) && first.dest == st.temp + 1 && second.dest == st.temp
    requires forall n :: n in Uses(first) ==> n < st.temp
    requires forall n :: n in Uses(second) ==> n < st.temp || n == st.temp + 1
    ensures Grows(st, st.(temp := st.temp + 2, code := st.code + [first] + [second]))
  {
    hide Ssa, Defined, Uses;
    var more := st.code + [first];
    assert Uses(first) <= Defined(st.code);
    Appended(st.code, first);
    assert Uses(second) <= Defined(more);
    Appended(more, second);
    assert st.code <= more + [second];
  }

  lemma CallGrows(cg: Codegen, st: State, name: string, input: TextValue)
    requires Ready(st) && Known(input.operand, st) && EmitCall(cg, st, name, input).Some?
    ensures
      var r := EmitCall(cg, st, name, input).value;
      Grows(st, r.1) && Known(r.0.operand, r.1)
  {
    hide Ready;
    var output := cg.outputType(name, input.ty).value;
    if name in cg.callables {
      Added(st, Invoke(st.temp, output, Callee.User(name), [input]));
    } else if name in cg.foreign {
      InvokeGrows(st, Callee.Foreign(cg.foreign[name]), output, [input]);
    } else if IsNumeric(cg.canonical(name), input.ty, output) {
      NumericGrows(st, cg.canonical(name), input, output);
    } else {
      InvokeGrows(st, Builtin(cg.canonical(name)), output, [input]);
    }
  }

  // ---- Endpoints and stages ----

  lemma {:induction false} InsertAllGrows(st: State, ty: Ty, values: seq<TextValue>, done: nat, current: Operand)
    requires Ready(st) && done <= |values| && AllKnown(values, st) && Known(current, st)
    ensures
      var r := InsertAll(st, ty, values, done, current);
      Grows(st, r.1) && Known(r.0, r.1)
    decreases |values| - done
  {
    if done < |values| {
      var i := Insert(st.temp, ty, current, values[done].operand, done);
      Added(st, i);
      hide Ready;
      InsertAllGrows(Add(st, i), ty, values, done + 1, Temp(st.temp));
    }
  }

  lemma {:induction false} EndpointGrows(cg: Codegen, st: State, e: TypedEndpoint, env: TextEnv)
    requires Ready(st) && EnvKnown(env, st) && EmitEndpoint(cg, st, e, env).Some?
    ensures
      var r := EmitEndpoint(cg, st, e, env).value;
      Grows(st, r.1) && Known(r.0.operand, r.1)
    decreases e, 0
  {
    hide Ready;
    match e.kind
    case Tuple(items) =>
      ItemsGrow(cg, st, items, env);
      var r := EmitItems(cg, st, items, env).value;
      InsertAllGrows(r.1, e.ty, r.0, 0, Poison);
    case Eval(source, stages) =>
      EndpointGrows(cg, st, source, env);
      var r := EmitEndpoint(cg, st, source, env).value;
      InlineGrows(cg, r.1, stages, r.0, env);
    case _ =>
  }

  lemma {:induction false} ItemsGrow(cg: Codegen, st: State, items: seq<TypedEndpoint>, env: TextEnv)
    requires Ready(st) && EnvKnown(env, st) && EmitItems(cg, st, items, env).Some?
    ensures
      var r := EmitItems(cg, st, items, env).value;
      Grows(st, r.1) && AllKnown(r.0, r.1)
    decreases items, 0
  {
    hide Ready;
    if items != [] {
      EndpointGrows(cg, st, items[0], env);
      var first := EmitEndpoint(cg, st, items[0], env).value;
      ItemsGrow(cg, first.1, items[1..], env);
    }
  }

  lemma {:induction false} InlineGrows(cg: Codegen, st: State, stages: seq<TypedStage>, v: TextValue, env: TextEnv)
    requires Ready(st) && EnvKnown(env, st) && Known(v.operand, st) && EmitInline(cg, st, stages, v, env).Some?
    ensures
      var r := EmitInline(cg, st, stages, v, env).value;
      Grows(st, r.1) && Known(r.0.operand, r.1)
    decreases stages, 0
  {
    hide Ready, EmitStage;
    if stages != [] {
      StageGrows(cg, st, stages[0], v, env);
      var r := EmitStage(cg, st, stages[0], v, env).value;
      InlineGrows(cg, r.1, stages[1..], r.0, env);
    }
  }

  lemma {:induction false} StageGrows(cg: Codegen, st: State, s: TypedStage, v: TextValue, env: TextEnv)
    requires Ready(st) && EnvKnown(env, st) && Known(v.operand, st) && EmitStage(cg, st, s, v, env).Some?
    ensures
      var r := EmitStage(cg, st, s, v, env).value;
      Grows(st, r.1) && Known(r.0.operand, r.1)
    decreases s, 0
  {
    hide Ready, InvokeHelper, EmitEndpoint, MapType, FilterType, ReduceType;
    match s.kind
    case Call(name, _) => CallGrows(cg, st, name, v);
    case Map(name) => InvokeGrows(st, Helper("map", name), MapType(cg, name, v.ty).value, [v]);
    case Filter(name) => InvokeGrows(st, Helper("filter", name), FilterType(cg, name, v.ty).value, [v]);
    case Repeat(node, count) =>
      EndpointGrows(cg, st, count, env);
      var n := EmitEndpoint(cg, st, count, env).value;
      InvokeGrows(n.1, Helper("repeat", node), cg.outputType(node, v.ty).value, [v, n.0.(ty := I64)]);
    case Reduce(op, identity) =>
      EndpointGrows(cg, st, identity, env);
      var i := EmitEndpoint(cg, st, identity, env).value;
      InvokeGrows(i.1, Helper("reduce", op), ReduceType(cg, op, v.ty, i.0.ty).value, [v, i.0]);
    case Scan(op, identity) =>
      EndpointGrows(cg, st, identity, env);
      var i := EmitEndpoint(cg, st, identity, env).value;
      InvokeGrows(i.1, Helper("scan", op), Ty.Seq(ReduceType(cg, op, v.ty, i.0.ty).value), [v, i.0]);
    case Match(_) => InvokeGrows(st, Helper("match", ""), s.output, [v]);
    case _ =>
  }

  // ---- Bindings, chains and callables ----

  lemma {:induction false} BindGrows(st: State, t: BindingTarget, v: TextValue, env: TextEnv)
    requires Ready(st) && EnvKnown(env, st) && Known(v.operand, st) && EmitBind(st, t, v, env).Some?
    ensures
      var r := EmitBind(st, t, v, env).value;
      Grows(st, r.1) && EnvKnown(r.0, r.1)
    decreases t, 0
  {
    hide Ready;
    if t.Both? { BindsGrow(st, t.items, v, 0, env); }
  }

  lemma {:induction false} BindsGrow(st: State, ts: seq<BindingTarget>, v: TextValue, index: nat, env: TextEnv)
    requires v.ty.Tuple? && index + |ts| == |v.ty.items|
    requires Ready(st) && EnvKnown(env, st) && Known(v.operand, st) && EmitBinds(st, ts, v, index, env).Some?
    ensures
      var r := EmitBinds(st, ts, v, index, env).value;
      Grows(st, r.1) && EnvKnown(r.0, r.1)
    decreases ts, 0
  {
    hide Ready;
    if ts != [] {
      ExtractGrows(st, v, index);
      var field := ExtractField(st, v, index).value;
      var item := TextValue(field.0, v.ty.items[index]);
      BindGrows(field.1, ts[0], item, env);
      var r := EmitBind(field.1, ts[0], item, env).value;
      BindsGrow(r.1, ts[1..], v, index + 1, r.0);
    }
  }

  /** A fault map takes its two results out of one call. */
  lemma FaultMapGrows(st: State, node: string, ty: Ty, v: TextValue)
    requires Ready(st) && Known(v.operand, st) && ty.Tuple? && |ty.items| == 2
    ensures
      var parts := InvokeHelper(st, Helper("fault_map", node), ty, [v]);
      var oks := ExtractField(parts.1, parts.0, 0).value;
      var faults := ExtractField(oks.1, parts.0, 1).value;
      && Ready(parts.1) && Ready(oks.1) && Known(parts.0.operand, parts.1) && Known(parts.0.operand, oks.1)
      && Grows(st, faults.1) && Known(oks.0, faults.1) && Known(faults.0, faults.1)
  {
    hide Ready;
    InvokeGrows(st, Helper("fault_map", node), ty, [v]);
    var parts := InvokeHelper(st, Helper("fault_map", node), ty, [v]);
    ExtractGrows(parts.1, parts.0, 0);
    ExtractGrows(ExtractField(parts.1, parts.0, 0).value.1, parts.0, 1);
  }

  lemma {:induction false} StagesGrow(cg: Codegen, st: State, stages: seq<TypedStage>, v: TextValue, env: TextEnv)
    requires Ready(st) && EnvKnown(env, st) && Known(v.operand, st) && EmitStages(cg, st, stages, v, env).Some?
    ensures
      var r := EmitStages(cg, st, stages, v, env).value;
      Grows(st, r.1) && EnvKnown(r.0, r.1)
    decreases stages, 0
  {
    hide Ready, EmitStage, EmitBind, InvokeHelper, ExtractField;
    if stages != [] {
      match stages[0].kind
      case Bind(target) =>
        BindGrows(st, target, v, env);
        var r := EmitBind(st, target, v, env).value;
        StagesGrow(cg, r.1, stages[1..], v, r.0);
      case FaultMap(node, ok, fault) =>
        var ty := FaultMapType(cg, node, v.ty).value;
        FaultMapGrows(st, node, ty, v);
        var parts := InvokeHelper(st, Helper("fault_map", node), ty, [v]);
        var oks := ExtractField(parts.1, parts.0, 0).value;
        var faults := ExtractField(oks.1, parts.0, 1).value;
        StagesGrow(cg, faults.1, stages[1..], v,
                   env[ok := TextValue(oks.0, ty.items[0])][fault := TextValue(faults.0, ty.items[1])]);
      case _ =>
        StageGrows(cg, st, stages[0], v, env);
        var r := EmitStage(cg, st, stages[0], v, env).value;
        StagesGrow(cg, r.1, stages[1..], r.0, env);
    }
  }

  lemma {:induction false} ChainsGrow(cg: Codegen, st: State, chains: seq<TypedChain>, env: TextEnv)
    requires Ready(st) && EnvKnown(env, st) && EmitChains(cg, st, chains, env).Some?
    ensures
      var r := EmitChains(cg, st, chains, env).value;
      Grows(st, r.1) && EnvKnown(r.0, r.1)
    decreases chains
  {
    hide Ready, EmitEndpoint, EmitStages;
    if chains != [] {
      EndpointGrows(cg, st, chains[0].source, env);
      var source := EmitEndpoint(cg, st, chains[0].source, env).value;
      StagesGrow(cg, source.1, chains[0].stages, source.0, env);
      var r := EmitStages(cg, source.1, chains[0].stages, source.0, env).value;
      ChainsGrow(cg, r.1, chains[1..], r.0);
    }
  }

  lemma {:induction false} InputsGrow(st: State, ports: seq<TypedPort>, ty: Ty, index: nat, env: TextEnv)
    requires Ready(st) && EnvKnown(env, st) && ty.Tuple? && index <= |ports|
    ensures
      var r := EmitInputs(st, ports, ty, index, env);
      Grows(st, r.1) && EnvKnown(r.0, r.1)
    decreases |ports| - index
  {
    if index < |ports| && index < |ty.items| {
      var i := Extract(st.temp, ty, Input, index);
      Added(st, i);
      hide Ready;
      InputsGrow(Add(st, i), ports, ty, index + 1, env[ports[index].name := TextValue(Temp(st.temp), ty.items[index])]);
    }
  }

  lemma {:induction false} OutputsKnown(ports: seq<TypedPort>, env: TextEnv, st: State)
    requires EnvKnown(env, st) && OutputValues(ports, env).Some?
    ensures AllKnown(OutputValues(ports, env).value, st) && |OutputValues(ports, env).value| == |ports|
  {
    if ports != [] { OutputsKnown(ports[1..], env, st); }
  }

  lemma OutputsGrow(st: State, ports: seq<TypedPort>, env: TextEnv, ty: Ty)
    requires Ready(st) && EnvKnown(env, st) && EmitOutputs(st, ports, env, ty).Some?
    ensures
      var r := EmitOutputs(st, ports, env, ty).value;
      Grows(st, r.1) && Known(r.0.operand, r.1)
  {
    hide Ready;
    if |ports| > 1 {
      var written := if |ports| <= |ty.items| then ports else ports[..|ty.items|];
      OutputsKnown(written, env, st);
      InsertAllGrows(st, ty, OutputValues(written, env).value, 0, Poison);
    }
  }

  lemma EnteredReady(c: TypedCallable, input: Ty, declared: set<Declaration>)
    requires |c.inputs| > 1 ==> input.Tuple?
    ensures Ready(Entered(c, input, declared).1) && EnvKnown(Entered(c, input, declared).0, Entered(c, input, declared).1)
  {
    if |c.inputs| > 1 { InputsGrow(State(0, [], declared), c.inputs, input, 0, map[]); }
  }

  /** Single assignment holds of every function that is emitted. */
  lemma EmittedCodeIsSsa(cg: Codegen, c: TypedCallable, input: Ty, output: Ty, declared: set<Declaration>)
    requires EmitCallable(cg, c, input, output, declared).Some?
    ensures
      var f := EmitCallable(cg, c, input, output, declared).value.0;
      Ssa(f.code) && TempsOf(f.result.operand) <= Defined(f.code)
  {
    EnteredReady(c, input, declared);
    var entered := Entered(c, input, declared);
    ChainsGrow(cg, entered.1, c.chains, entered.0);
    var body := EmitChains(cg, entered.1, c.chains, entered.0).value;
    OutputsGrow(body.1, c.outputs, body.0, output);
  }
}
