/** The types along an emitted function: what its calls are declared with, and at what types its values are used. */
module SsaTypes {
  import opened Ast
  import opened Types
  import opened Typed
  import opened SsaEmission

  // ---- Declared functions ----

  /** A call that leaves the emitted callables. */
  predicate IsOutside(cg: Codegen, i: Instr) { i.Invoke? && !(i.callee.User? && i.callee.name in cg.callables) }

  /** The declaration has the symbol, the result and the operands of the call. */
  predicate Fits(d: Declaration, i: Instr)
    requires i.Invoke?
  {
    && d.callee == i.callee && d.output == i.ty && |d.inputs| == |i.args|
    && forall k :: 0 <= k < |i.args| ==> d.inputs[k] == i.args[k].ty
  }

  ghost predicate IsDeclared(cg: Codegen, declared: set<Declaration>, i: Instr)
  {
    IsOutside(cg, i) ==> exists d :: d in declared && Fits(d, i)
  }

  predicate IsCalled(cg: Codegen, code: seq<Instr>, d: Declaration)
  {
    exists i :: 0 <= i < |code| && IsOutside(cg, code[i]) && Fits(d, code[i])
  }

  // ---- Types of values ----

  function ResultType(i: Instr): Option<Ty>
  {
    match i
    case Extract(_, ty, _, index) => if ty.Tuple? && index < |ty.items| then Some(ty.items[index]) else None
    case Compare(_, _, _, _, _) => Some(Ty.Bool)
    case _ => Some(i.ty)
  }

  /** A temporary has the type of its assignment, the argument that of the function. */
  ghost predicate Has(code: seq<Instr>, input: Ty, v: TextValue)
  {
    && (v.operand.Temp? ==>
          exists j :: 0 <= j < |code| && code[j].dest == v.operand.n && ResultType(code[j]) == Some(v.ty))
    && (v.operand.Input? ==> v.ty == input)
  }

  /** Repeat counts are passed as `i64` whatever they are. */
  predicate IsCount(callee: Callee, k: nat) { callee.Helper? && callee.stage == "repeat" && k == 1 }

  ghost predicate UsesFit(code: seq<Instr>, input: Ty, i: Instr)
  {
    match i
    case Extract(_, ty, agg, _) => Has(code, input, TextValue(agg, ty))
    case Insert(_, ty, agg, _, _) => Has(code, input, TextValue(agg, ty))
    case Invoke(_, _, callee, args) =>
      forall k :: 0 <= k < |args| ==> if IsCount(callee, k) then args[k].ty == I64 else Has(code, input, args[k])
    case Choose(_, ty, c, l, r) =>
      Has(code, input, TextValue(c, Ty.Bool)) && Has(code, input, TextValue(l, ty)) && Has(code, input, TextValue(r, ty))
    case _ => Has(code, input, TextValue(i.left, i.ty)) && Has(code, input, TextValue(i.right, i.ty))
  }

  ghost predicate EnvHas(code: seq<Instr>, input: Ty, env: TextEnv)
  {
    forall x :: x in env ==> Has(code, input, env[x])
  }

  // ---- Steps ----

  /** What is added is declared and well typed, and nothing is declared without need. */
  ghost predicate Adds(cg: Codegen, input: Ty, st: State, st': State)
  {
    && st.code <= st'.code && st.declarations <= st'.declarations
    && (forall i :: |st.code| <= i < |st'.code| ==> IsDeclared(cg, st'.declarations, st'.code[i]))
    && (forall i :: |st.code| <= i < |st'.code| ==> UsesFit(st'.code, input, st'.code[i]))
    && (forall d :: d in st'.declarations ==> d in st.declarations || IsCalled(cg, st'.code, d))
  }

  lemma Stays(code: seq<Instr>, more: seq<Instr>, input: Ty, v: TextValue)
    requires code <= more && Has(code, input, v)
    ensures Has(more, input, v)
  {
    if v.operand.Temp? {
      var j :| 0 <= j < |code| && code[j].dest == v.operand.n && ResultType(code[j]) == Some(v.ty);
      assert more[j] == code[j];
    }
  }

  lemma EnvStays(code: seq<Instr>, more: seq<Instr>, input: Ty, env: TextEnv)
    requires code <= more && EnvHas(code, input, env)
    ensures EnvHas(more, input, env)
  {
    forall x | x in env
      ensures Has(more, input, env[x])
    {
      Stays(code, more, input, env[x]);
    }
  }

  lemma UsesStay(code: seq<Instr>, more: seq<Instr>, input: Ty, i: Instr)
    requires code <= more && UsesFit(code, input, i)
    ensures UsesFit(more, input, i)
  {
    hide Has, ResultType;
    forall v | Has(code, input, v)
      ensures Has(more, input, v)
    {
      Stays(code, more, input, v);
    }
  }

  lemma CalledStays(cg: Codegen, code: seq<Instr>, more: seq<Instr>, d: Declaration)
    requires code <= more && IsCalled(cg, code, d)
    ensures IsCalled(cg, more, d)
  {
    var i :| 0 <= i < |code| && IsOutside(cg, code[i]) && Fits(d, code[i]);
    assert more[i] == code[i];
  }

  lemma AddsNothing(cg: Codegen, input: Ty, st: State)
    ensures Adds(cg, input, st, st)
  {}

  lemma AddsOn(cg: Codegen, input: Ty, a: State, b: State, c: State)
    requires Adds(cg, input, a, b) && Adds(cg, input, b, c)
    ensures Adds(cg, input, a, c)
  {
    hide UsesFit, IsCalled, IsOutside, Fits;
    forall i | |a.code| <= i < |c.code|
      ensures IsDeclared(cg, c.declarations, c.code[i]) && UsesFit(c.code, input, c.code[i])
    {
      if i < |b.code| {
        assert b.code[i] == c.code[i];
        UsesStay(b.code, c.code, input, b.code[i]);
      }
    }
    forall d | d in c.declarations
      ensures d in a.declarations || IsCalled(cg, c.code, d)
    {
      if d in b.declarations && d !in a.declarations { CalledStays(cg, b.code, c.code, d); }
    }
  }

  // ---- Single instructions ----

  /** An instruction that is no call to the outside. */
  lemma InnerAdded(cg: Codegen, input: Ty, st: State, st': State, i: Instr)
    requires st'.code == st.code + [i] && st'.declarations == st.declarations
    requires !IsOutside(cg, i) && UsesFit(st.code, input, i)
    ensures Adds(cg, input, st, st')
    ensures ResultType(i).Some? ==> Has(st'.code, input, TextValue(Temp(i.dest), ResultType(i).value))
  {
    UsesStay(st.code, st'.code, input, i);
    assert st'.code[|st.code|] == i;
    hide UsesFit, IsCalled;
    forall d | d in st'.declarations
      ensures d in st.declarations || IsCalled(cg, st'.code, d)
    {}
  }

  lemma ExtractAdds(cg: Codegen, input: Ty, st: State, v: TextValue, index: nat)
    requires Has(st.code, input, v) && ExtractField(st, v, index).Some?
    ensures
      var r := ExtractField(st, v, index).value;
      Adds(cg, input, st, r.1) && Has(r.1.code, input, TextValue(r.0, v.ty.items[index]))
  {
    hide Adds, Has;
    InnerAdded(cg, input, st, ExtractField(st, v, index).value.1, Extract(st.temp, v.ty, v.operand, index));
  }

  lemma InvokeAdds(cg: Codegen, input: Ty, st: State, callee: Callee, output: Ty, args: seq<TextValue>)
    requires !callee.User?
    requires
      forall k :: 0 <= k < |args| ==> if IsCount(callee, k) then args[k].ty == I64 else Has(st.code, input, args[k])
    ensures
      var r := InvokeHelper(st, callee, output, args);
      Adds(cg, input, st, r.1) && Has(r.1.code, input, r.0)
  {
    var i := Invoke(st.temp, output, callee, args);
    var st' := InvokeHelper(st, callee, output, args).1;
    assert UsesFit(st.code, input, i);
    UsesStay(st.code, st'.code, input, i);
    assert st'.code[|st.code|] == i;
    hide UsesFit;
    var d := Declaration(callee, output, seq(|args|, k requires 0 <= k < |args| => args[k].ty));
    assert st'.declarations == st.declarations + {d} && Fits(d, i);
  }

  lemma NumericAdds(cg: Codegen, input: Ty, st: State, name: string, v: TextValue, output: Ty)
    requires Has(st.code, input, v) && IsNumeric(name, v.ty, output)
    ensures
      var r := EmitNumeric(st, name, v, output);
      Adds(cg, input, st, r.1) && Has(r.1.code, input, r.0)
  {
    hide Adds, Has;
    ExtractAdds(cg, input, st, v, 0);
    var left := ExtractField(st, v, 0).value;
    Stays(st.code, left.1.code, input, v) by { assert st.code <= left.1.code; }
    ExtractAdds(cg, input, left.1, v, 1);
    var right := ExtractField(left.1, v, 1).value;
    AddsOn(cg, input, st, left.1, right.1);
    Stays(left.1.code, right.1.code, input, TextValue(left.0, output)) by { assert left.1.code <= right.1.code; }
    var t := right.1.temp;
    var r := EmitNumeric(st, name, v, output);
    if name == "min" || name == "max" {
      var order := if output == F32 || output == F64 then "o" else "s";
      ChoiceAdds(cg, input, right.1, order + (if name == "min" then "lt" else "gt"), output, left.0, right.0);
    } else {
      InnerAdded(cg, input, right.1, r.1, Arith(t, NumericInstruction(name, output).value, output, left.0, right.0));
    }
    AddsOn(cg, input, st, right.1, r.1);
  }

  lemma ChoiceAdds(cg: Codegen, input: Ty, st: State, order: string, t: Ty, l: Operand, r: Operand)
    requires Has(st.code, input, TextValue(l, t)) && Has(st.code, input, TextValue(r, t))
    ensures
      var choose := Choose(st.temp, t, Temp(st.temp + 1), l, r);
      var st' := st.(temp := st.temp + 2, code := st.code + [Compare(st.temp + 1, order, t, l, r)] + [choose]);
      Adds(cg, input, st, st') && Has(st'.code, input, TextValue(Temp(st.temp), t))
  {
    hide Adds, Has;
    var compare, choose := Compare(st.temp + 1, order, t, l, r), Choose(st.temp, t, Temp(st.temp + 1), l, r);
    var mid := st.(code := st.code + [compare]);
    var st' := st.(temp := st.temp + 2, code := mid.code + [choose]);
    InnerAdded(cg, input, st, mid, compare);
    Stays(st.code, mid.code, input, TextValue(l, t));
    Stays(st.code, mid.code, input, TextValue(r, t));
    InnerAdded(cg, input, mid, st', choose);
    AddsOn(cg, input, st, mid, st');
  }

  lemma CallAdds(cg: Codegen, input: Ty, st: State, name: string, v: TextValue)
    requires Has(st.code, input, v) && EmitCall(cg, st, name, v).Some?
    ensures
      var r := EmitCall(cg, st, name, v).value;
      Adds(cg, input, st, r.1) && Has(r.1.code, input, r.0)
  {
    hide Adds, Has, InvokeHelper, EmitNumeric;
    var output := cg.outputType(name, v.ty).value;
    if name in cg.callables {
      var i := Invoke(st.temp, output, Callee.User(name), [v]);
      InnerAdded(cg, input, st, Add(st, i), i);
    } else if name in cg.foreign {
      InvokeAdds(cg, input, st, Callee.Foreign(cg.foreign[name]), output, [v]);
    } else if IsNumeric(cg.canonical(name), v.ty, output) {
      NumericAdds(cg, input, st, cg.canonical(name), v, output);
    } else {
      InvokeAdds(cg, input, st, Builtin(cg.canonical(name)), output, [v]);
    }
  }

  // ---- Endpoints and stages ----

  lemma {:induction false} InsertAllAdds(cg: Codegen, input: Ty, st: State, ty: Ty, values: seq<TextValue>, done: nat,
      current: Operand)
    requires done <= |values| && Has(st.code, input, TextValue(current, ty))
    ensures
      var r := InsertAll(st, ty, values, done, current);
      Adds(cg, input, st, r.1) && Has(r.1.code, input, TextValue(r.0, ty))
    decreases |values| - done
  {
    hide Adds, Has;
    if done < |values| {
      var i := Insert(st.temp, ty, current, values[done].operand, done);
      InnerAdded(cg, input, st, Add(st, i), i);
      InsertAllAdds(cg, input, Add(st, i), ty, values, done + 1, Temp(st.temp));
      AddsOn(cg, input, st, Add(st, i), InsertAll(st, ty, values, done, current).1);
    } else {
      AddsNothing(cg, input, st);
    }
  }

  lemma {:induction false} EndpointAdds(cg: Codegen, input: Ty, st: State, e: TypedEndpoint, env: TextEnv)
    requires EnvHas(st.code, input, env) && EmitEndpoint(cg, st, e, env).Some?
    ensures
      var r := EmitEndpoint(cg, st, e, env).value;
      Adds(cg, input, st, r.1) && Has(r.1.code, input, r.0)
    decreases e, 0
  {
    hide Adds;
    match e.kind
    case Tuple(items) =>
      hide InsertAll;
      ItemsAdd(cg, input, st, items, env);
      var r := EmitItems(cg, st, items, env).value;
      InsertAllAdds(cg, input, r.1, e.ty, r.0, 0, Poison);
      AddsOn(cg, input, st, r.1, InsertAll(r.1, e.ty, r.0, 0, Poison).1);
    case Eval(source, stages) =>
      hide Has;
      EndpointAdds(cg, input, st, source, env);
      var r := EmitEndpoint(cg, st, source, env).value;
      EnvLater(cg, input, st, r.1, env);
      InlineAdds(cg, input, r.1, stages, r.0, env);
      AddsOn(cg, input, st, r.1, EmitEndpoint(cg, st, e, env).value.1);
    case _ => AddsNothing(cg, input, st);
  }

  lemma EnvLater(cg: Codegen, input: Ty, st: State, st': State, env: TextEnv)
    requires Adds(cg, input, st, st') && EnvHas(st.code, input, env)
    ensures EnvHas(st'.code, input, env)
  {
    EnvStays(st.code, st'.code, input, env);
  }

  lemma ValueLater(cg: Codegen, input: Ty, st: State, st': State, v: TextValue)
    requires Adds(cg, input, st, st') && Has(st.code, input, v)
    ensures Has(st'.code, input, v)
  {
    Stays(st.code, st'.code, input, v);
  }

  lemma {:induction false} ItemsAdd(cg: Codegen, input: Ty, st: State, items: seq<TypedEndpoint>, env: TextEnv)
    requires EnvHas(st.code, input, env) && EmitItems(cg, st, items, env).Some?
    ensures Adds(cg, input, st, EmitItems(cg, st, items, env).value.1)
    decreases items, 0
  {
    hide Adds, Has, EmitEndpoint, EnvHas;
    if items != [] {
      EndpointAdds(cg, input, st, items[0], env);
      var first := EmitEndpoint(cg, st, items[0], env).value;
      EnvLater(cg, input, st, first.1, env);
      ItemsAdd(cg, input, first.1, items[1..], env);
      AddsOn(cg, input, st, first.1, EmitItems(cg, st, items, env).value.1);
    } else {
      AddsNothing(cg, input, st);
    }
  }

  lemma {:induction false} InlineAdds(cg: Codegen, input: Ty, st: State, stages: seq<TypedStage>, v: TextValue,
      env: TextEnv)
    requires EnvHas(st.code, input, env) && Has(st.code, input, v) && EmitInline(cg, st, stages, v, env).Some?
    ensures
      var r := EmitInline(cg, st, stages, v, env).value;
      Adds(cg, input, st, r.1) && Has(r.1.code, input, r.0)
    decreases stages, 0
  {
    hide Adds, Has, EmitStage, EnvHas;
    if stages != [] {
      StageAdds(cg, input, st, stages[0], v, env);
      var r := EmitStage(cg, st, stages[0], v, env).value;
      EnvLater(cg, input, st, r.1, env);
      InlineAdds(cg, input, r.1, stages[1..], r.0, env);
      AddsOn(cg, input, st, r.1, EmitInline(cg, st, stages, v, env).value.1);
    } else {
      AddsNothing(cg, input, st);
    }
  }

  lemma {:induction false} StageAdds(cg: Codegen, input: Ty, st: State, s: TypedStage, v: TextValue, env: TextEnv)
    requires EnvHas(st.code, input, env) && Has(st.code, input, v) && EmitStage(cg, st, s, v, env).Some?
    ensures
      var r := EmitStage(cg, st, s, v, env).value;
      Adds(cg, input, st, r.1) && Has(r.1.code, input, r.0)
    decreases s, 0
  {
    hide Adds, Has, EnvHas, InvokeHelper, EmitEndpoint, MapType, FilterType, ReduceType;
    match s.kind
    case Call(name, _) => CallAdds(cg, input, st, name, v);
    case Map(name) => InvokeAdds(cg, input, st, Helper("map", name), MapType(cg, name, v.ty).value, [v]);
    case Filter(name) => InvokeAdds(cg, input, st, Helper("filter", name), FilterType(cg, name, v.ty).value, [v]);
    case Repeat(node, count) =>
      var n := EmitEndpoint(cg, st, count, env).value;
      OperandAdds(cg, input, st, count, v, env, Helper("repeat", node), cg.outputType(node, v.ty).value, n.0.(ty := I64));
    case Reduce(op, identity) =>
      var i := EmitEndpoint(cg, st, identity, env).value;
      OperandAdds(cg, input, st, identity, v, env, Helper("reduce", op), ReduceType(cg, op, v.ty, i.0.ty).value, i.0);
    case Scan(op, identity) =>
      var i := EmitEndpoint(cg, st, identity, env).value;
      OperandAdds(cg, input, st, identity, v, env, Helper("scan", op), Ty.Seq(ReduceType(cg, op, v.ty, i.0.ty).value), i.0);
    case Match(_) => InvokeAdds(cg, input, st, Helper("match", ""), s.output, [v]);
    case _ =>
  }

  /** A helper that takes an operand besides the value that flows in. */
  lemma {:induction false} OperandAdds(cg: Codegen, input: Ty, st: State, e: TypedEndpoint, v: TextValue,
      env: TextEnv, callee: Callee, output: Ty, operand: TextValue)
    requires EnvHas(st.code, input, env) && Has(st.code, input, v) && EmitEndpoint(cg, st, e, env).Some?
    requires
      var r := EmitEndpoint(cg, st, e, env).value.0;
      !callee.User? && operand == if IsCount(callee, 1) then r.(ty := I64) else r
    ensures
      var r := InvokeHelper(EmitEndpoint(cg, st, e, env).value.1, callee, output, [v, operand]);
      Adds(cg, input, st, r.1) && Has(r.1.code, input, r.0)
    decreases e, 1
  {
    hide Adds, Has, EnvHas, InvokeHelper, EmitEndpoint;
    EndpointAdds(cg, input, st, e, env);
    var r := EmitEndpoint(cg, st, e, env).value;
    ValueLater(cg, input, st, r.1, v);
    InvokeAdds(cg, input, r.1, callee, output, [v, operand]);
    AddsOn(cg, input, st, r.1, InvokeHelper(r.1, callee, output, [v, operand]).1);
  }

  // ---- Bindings, chains and callables ----

  lemma EnvBound(code: seq<Instr>, input: Ty, env: TextEnv, x: string, v: TextValue)
    requires EnvHas(code, input, env) && Has(code, input, v)
    ensures EnvHas(code, input, env[x := v])
  {
    hide Has;
  }

  lemma {:induction false} BindAdds(cg: Codegen, input: Ty, st: State, t: BindingTarget, v: TextValue, env: TextEnv)
    requires EnvHas(st.code, input, env) && Has(st.code, input, v) && EmitBind(st, t, v, env).Some?
    ensures
      var r := EmitBind(st, t, v, env).value;
      Adds(cg, input, st, r.1) && EnvHas(r.1.code, input, r.0)
    decreases t, 0
  {
    hide Adds, Has, EnvHas;
    match t
    case Drop => AddsNothing(cg, input, st);
    case Bound(x) =>
      AddsNothing(cg, input, st);
      EnvBound(st.code, input, env, x, v);
    case Both(items) => BindsAdd(cg, input, st, items, v, 0, env);
  }

  lemma {:induction false} BindsAdd(cg: Codegen, input: Ty, st: State, ts: seq<BindingTarget>, v: TextValue,
      index: nat, env: TextEnv)
    requires v.ty.Tuple? && index + |ts| == |v.ty.items|
    requires EnvHas(st.code, input, env) && Has(st.code, input, v) && EmitBinds(st, ts, v, index, env).Some?
    ensures
      var r := EmitBinds(st, ts, v, index, env).value;
      Adds(cg, input, st, r.1) && EnvHas(r.1.code, input, r.0)
    decreases ts, 0
  {
    hide Adds, Has, EnvHas, EmitBind;
    if ts != [] {
      ExtractAdds(cg, input, st, v, index);
      var field := ExtractField(st, v, index).value;
      hide ExtractField;
      EnvLater(cg, input, st, field.1, env);
      var item := TextValue(field.0, v.ty.items[index]);
      BindAdds(cg, input, field.1, ts[0], item, env);
      var r := EmitBind(field.1, ts[0], item, env).value;
      AddsOn(cg, input, st, field.1, r.1);
      ValueLater(cg, input, st, r.1, v);
      BindsAdd(cg, input, r.1, ts[1..], v, index + 1, r.0);
      AddsOn(cg, input, st, r.1, EmitBinds(st, ts, v, index, env).value.1);
    } else {
      AddsNothing(cg, input, st);
    }
  }

  lemma FaultMapAdds(cg: Codegen, input: Ty, st: State, node: string, ty: Ty, v: TextValue, env: TextEnv, ok: string,
      fault: string)
    requires EnvHas(st.code, input, env) && Has(st.code, input, v) && ty.Tuple? && |ty.items| == 2
    ensures
      var parts := InvokeHelper(st, Helper("fault_map", node), ty, [v]);
      var oks := ExtractField(parts.1, parts.0, 0).value;
      var faults := ExtractField(oks.1, parts.0, 1).value;
      var env' := env[ok := TextValue(oks.0, ty.items[0])][fault := TextValue(faults.0, ty.items[1])];
      && Adds(cg, input, st, faults.1) && EnvHas(faults.1.code, input, env') && Has(faults.1.code, input, v)
  {
    hide Adds, Has, EnvHas;
    var parts := InvokeHelper(st, Helper("fault_map", node), ty, [v]);
    InvokeAdds(cg, input, st, Helper("fault_map", node), ty, [v]);
    ExtractAdds(cg, input, parts.1, parts.0, 0);
    var oks := ExtractField(parts.1, parts.0, 0).value;
    ValueLater(cg, input, parts.1, oks.1, parts.0);
    ExtractAdds(cg, input, oks.1, parts.0, 1);
    var faults := ExtractField(oks.1, parts.0, 1).value;
    AddsOn(cg, input, st, parts.1, oks.1);
    AddsOn(cg, input, st, oks.1, faults.1);
    ValueLater(cg, input, oks.1, faults.1, TextValue(oks.0, ty.items[0]));
    ValueLater(cg, input, st, faults.1, v);
    EnvLater(cg, input, st, faults.1, env);
    EnvBound(faults.1.code, input, env, ok, TextValue(oks.0, ty.items[0]));
    EnvBound(faults.1.code, input, env[ok := TextValue(oks.0, ty.items[0])], fault, TextValue(faults.0, ty.items[1]));
  }

  lemma {:induction false} StagesAdd(cg: Codegen, input: Ty, st: State, stages: seq<TypedStage>, v: TextValue,
      env: TextEnv)
    requires EnvHas(st.code, input, env) && Has(st.code, input, v) && EmitStages(cg, st, stages, v, env).Some?
    ensures
      var r := EmitStages(cg, st, stages, v, env).value;
      Adds(cg, input, st, r.1) && EnvHas(r.1.code, input, r.0)
    decreases stages, 0
  {
    hide Adds, Has, EnvHas, EmitStage, EmitBind, InvokeHelper, ExtractField;
    if stages == [] {
      AddsNothing(cg, input, st);
    } else {
      match stages[0].kind
      case Bind(target) =>
        BindAdds(cg, input, st, target, v, env);
        var r := EmitBind(st, target, v, env).value;
        ValueLater(cg, input, st, r.1, v);
        StagesAdd(cg, input, r.1, stages[1..], v, r.0);
        AddsOn(cg, input, st, r.1, EmitStages(cg, st, stages, v, env).value.1);
      case FaultMap(node, ok, fault) =>
        var ty := FaultMapType(cg, node, v.ty).value;
        FaultMapAdds(cg, input, st, node, ty, v, env, ok, fault);
        var parts := InvokeHelper(st, Helper("fault_map", node), ty, [v]);
        var oks := ExtractField(parts.1, parts.0, 0).value;
        var faults := ExtractField(oks.1, parts.0, 1).value;
        StagesAdd(cg, input, faults.1, stages[1..], v,
                  env[ok := TextValue(oks.0, ty.items[0])][fault := TextValue(faults.0, ty.items[1])]);
        AddsOn(cg, input, st, faults.1, EmitStages(cg, st, stages, v, env).value.1);
      case _ =>
        StageAdds(cg, input, st, stages[0], v, env);
        var r := EmitStage(cg, st, stages[0], v, env).value;
        EnvLater(cg, input, st, r.1, env);
        StagesAdd(cg, input, r.1, stages[1..], r.0, env);
        AddsOn(cg, input, st, r.1, EmitStages(cg, st, stages, v, env).value.1);
    }
  }

  lemma {:induction false} ChainsAdd(cg: Codegen, input: Ty, st: State, chains: seq<TypedChain>, env: TextEnv)
    requires EnvHas(st.code, input, env) && EmitChains(cg, st, chains, env).Some?
    ensures
      var r := EmitChains(cg, st, chains, env).value;
      Adds(cg, input, st, r.1) && EnvHas(r.1.code, input, r.0)
    decreases chains
  {
    hide Adds, Has, EnvHas, EmitEndpoint, EmitStages;
    if chains == [] {
      AddsNothing(cg, input, st);
    } else {
      EndpointAdds(cg, input, st, chains[0].source, env);
      var source := EmitEndpoint(cg, st, chains[0].source, env).value;
      EnvLater(cg, input, st, source.1, env);
      StagesAdd(cg, input, source.1, chains[0].stages, source.0, env);
      var r := EmitStages(cg, source.1, chains[0].stages, source.0, env).value;
      AddsOn(cg, input, st, source.1, r.1);
      ChainsAdd(cg, input, r.1, chains[1..], r.0);
      AddsOn(cg, input, st, r.1, EmitChains(cg, st, chains, env).value.1);
    }
  }

  lemma {:induction false} InputsAdd(cg: Codegen, st: State, ports: seq<TypedPort>, ty: Ty, index: nat, env: TextEnv)
    requires EnvHas(st.code, ty, env) && ty.Tuple? && index <= |ports|
    ensures
      var r := EmitInputs(st, ports, ty, index, env);
      Adds(cg, ty, st, r.1) && EnvHas(r.1.code, ty, r.0)
    decreases |ports| - index
  {
    hide Adds, Has, EnvHas;
    if index < |ports| && index < |ty.items| {
      var i := Extract(st.temp, ty, Input, index);
      var next := Add(st, i);
      assert Has(st.code, ty, TextValue(Input, ty)) by { InputHas(st.code, ty); }
      InnerAdded(cg, ty, st, next, i);
      EnvLater(cg, ty, st, next, env);
      var v := TextValue(Temp(st.temp), ty.items[index]);
      EnvBound(next.code, ty, env, ports[index].name, v);
      InputsAdd(cg, next, ports, ty, index + 1, env[ports[index].name := v]);
      AddsOn(cg, ty, st, next, EmitInputs(st, ports, ty, index, env).1);
    } else {
      AddsNothing(cg, ty, st);
    }
  }

  lemma InputHas(code: seq<Instr>, input: Ty)
    ensures Has(code, input, TextValue(Input, input))
  {}

  lemma OutputsAdd(cg: Codegen, input: Ty, st: State, ports: seq<TypedPort>, env: TextEnv, ty: Ty)
    requires EnvHas(st.code, input, env) && EmitOutputs(st, ports, env, ty).Some?
    ensures
      var r := EmitOutputs(st, ports, env, ty).value;
      Adds(cg, input, st, r.1) && Has(r.1.code, input, r.0)
  {
    hide Adds, InsertAll, OutputValues;
    AddsNothing(cg, input, st);
    if |ports| > 1 {
      var values := OutputValues(if |ports| <= |ty.items| then ports else ports[..|ty.items|], env).value;
      InsertAllAdds(cg, input, st, ty, values, 0, Poison);
    }
  }

  lemma EnteredAdds(cg: Codegen, c: TypedCallable, input: Ty, declared: set<Declaration>)
    requires |c.inputs| > 1 ==> input.Tuple?
    ensures
      var r := Entered(c, input, declared);
      Adds(cg, input, State(0, [], declared), r.1) && EnvHas(r.1.code, input, r.0)
  {
    hide Adds;
    AddsNothing(cg, input, State(0, [], declared));
    if |c.inputs| > 1 {
      hide EmitInputs;
      InputsAdd(cg, State(0, [], declared), c.inputs, input, 0, map[]);
    }
  }

  // ---- Main results ----

  lemma CallableAdds(cg: Codegen, c: TypedCallable, input: Ty, output: Ty, declared: set<Declaration>)
    requires EmitCallable(cg, c, input, output, declared).Some?
    ensures
      var r := EmitCallable(cg, c, input, output, declared).value;
      && Adds(cg, input, State(0, [], declared), r.1) && Has(r.1.code, input, r.0.result) && r.0.code == r.1.code
  {
    hide Adds, EnvHas, Has, Entered, EmitChains, EmitOutputs;
    EnteredAdds(cg, c, input, declared);
    var start, entered := State(0, [], declared), Entered(c, input, declared);
    ChainsAdd(cg, input, entered.1, c.chains, entered.0);
    var body := EmitChains(cg, entered.1, c.chains, entered.0).value;
    OutputsAdd(cg, input, body.1, c.outputs, body.0, output);
    var r := EmitOutputs(body.1, c.outputs, body.0, output).value;
    AddsOn(cg, input, start, entered.1, body.1);
    AddsOn(cg, input, start, body.1, r.1);
  }

  /** Every call that leaves the emitted callables is declared, and only such calls are. */
  lemma CallsAreDeclared(cg: Codegen, c: TypedCallable, input: Ty, output: Ty, declared: set<Declaration>)
    requires EmitCallable(cg, c, input, output, declared).Some?
    ensures
      var r := EmitCallable(cg, c, input, output, declared).value;
      && declared <= r.1.declarations
      && (forall i :: i in r.0.code && i.Invoke? && !(i.callee.User? && i.callee.name in cg.callables) ==>
            exists d :: d in r.1.declarations && Fits(d, i))
      && forall d :: d in r.1.declarations - declared ==>
           exists i :: i in r.0.code && i.Invoke? && !(i.callee.User? && i.callee.name in cg.callables) && Fits(d, i)
  {
    hide UsesFit, Has, EmitCallable, Fits;
    CallableAdds(cg, c, input, output, declared);
    var r := EmitCallable(cg, c, input, output, declared).value;
    forall i | i in r.0.code && IsOutside(cg, i)
      ensures exists d :: d in r.1.declarations && Fits(d, i)
    {
      var j :| 0 <= j < |r.0.code| && r.0.code[j] == i;
      assert IsDeclared(cg, r.1.declarations, r.1.code[j]);
    }
    forall d | d in r.1.declarations - declared
      ensures exists i :: i in r.0.code && i.Invoke? && IsOutside(cg, i) && Fits(d, i)
    {
      var j :| 0 <= j < |r.1.code| && IsOutside(cg, r.1.code[j]) && Fits(d, r.1.code[j]);
      assert r.1.code[j] in r.0.code;
    }
  }

  /** Every value is used, and returned, at the type it is assigned with. */
  lemma UsesHaveTheirTypes(cg: Codegen, c: TypedCallable, input: Ty, output: Ty, declared: set<Declaration>)
    requires EmitCallable(cg, c, input, output, declared).Some?
    ensures
      var f := EmitCallable(cg, c, input, output, declared).value.0;
      && (forall i :: 0 <= i < |f.code| ==> UsesFit(f.code, input, f.code[i]))
      && Has(f.code, input, f.result)
  {
    hide UsesFit, Has, EmitCallable;
    CallableAdds(cg, c, input, output, declared);
  }
}
