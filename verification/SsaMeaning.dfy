/** Executing the emitted instructions returns what evaluating the graph does. */
module SsaMeaning {
  import opened Ast
  import opened Types
  import opened Typed
  import opened SsaEmission
  import opened SsaForm

  datatype LValue =
    | IntL(n: int)
    | RealL(r: real)
    | BoolL(flag: bool)
    | AggL(items: seq<LValue>)
    | OtherL(tag: int)
    | DefaultL(ty: Ty)
    | PoisonL

  /** Calls, arithmetic and comparison, not looked into. */
  datatype Machine = Machine(
    call: (Callee, seq<LValue>) -> LValue,
    numeric: (string, Ty, LValue, LValue) -> LValue,
    less: (Ty, LValue, LValue) -> bool)

  function ItemAt(v: LValue, i: nat): LValue { if v.AggL? && i < |v.items| then v.items[i] else PoisonL }

  // ---- Evaluating a graph ----

  datatype TValue = TValue(value: LValue, ty: Ty)

  type TEnv = map<string, TValue>

  function Smaller(mc: Machine, t: Ty, l: LValue, r: LValue): LValue { if mc.less(t, l, r) then l else r }

  function Larger(mc: Machine, t: Ty, l: LValue, r: LValue): LValue { if mc.less(t, r, l) then l else r }

  function Numeric(mc: Machine, name: string, t: Ty, l: LValue, r: LValue): LValue
  {
    if name == "min" then Smaller(mc, t, l, r) else if name == "max" then Larger(mc, t, l, r) else mc.numeric(name, t, l, r)
  }

  function GraphCall(cg: Codegen, mc: Machine, name: string, v: TValue): Option<TValue>
  {
    var output :- cg.outputType(name, v.ty);
    var builtin := cg.canonical(name);
    Some(TValue(
      if name in cg.callables then mc.call(Callee.User(name), [v.value])
      else if name in cg.foreign then mc.call(Callee.Foreign(cg.foreign[name]), [v.value])
      else if IsNumeric(builtin, v.ty, output) then
        Numeric(mc, builtin, output, ItemAt(v.value, 0), ItemAt(v.value, 1))
      else mc.call(Callee.Builtin(builtin), [v.value]),
      output))
  }

  /** Texts and sequences have no value here: the instructions only hold their place. */
  function GraphEndpoint(cg: Codegen, mc: Machine, e: TypedEndpoint, env: TEnv): Option<TValue>
    decreases e, 0
  {
    match e.kind
    case Variable(x) => if x in env then Some(env[x]) else None
    case Int(n) => Some(TValue(IntL(n), e.ty))
    case Real(r) => Some(TValue(RealL(r), e.ty))
    case RealF32(r) => Some(TValue(RealL(r), e.ty))
    case Bool(b) => Some(TValue(BoolL(b), e.ty))
    case Unit => Some(TValue(DefaultL(e.ty), e.ty))
    case Tuple(items) =>
      var vs :- GraphItems(cg, mc, items, env);
      if items != [] && e.ty.Tuple? && |e.ty.items| == |items| then Some(TValue(AggL(vs), e.ty)) else None
    case Eval(source, stages) =>
      if !HasContext(cg, source, stages) then None else
        var v :- GraphEndpoint(cg, mc, source, env);
        GraphInline(cg, mc, stages, v, env)
    case _ => None
  }

  function GraphItems(cg: Codegen, mc: Machine, items: seq<TypedEndpoint>, env: TEnv): (r: Option<seq<LValue>>)
    ensures r.Some? ==> |r.value| == |items|
    decreases items, 0
  {
    if items == [] then Some([]) else
      var v :- GraphEndpoint(cg, mc, items[0], env);
      var vs :- GraphItems(cg, mc, items[1..], env);
      Some([v.value] + vs)
  }

  function GraphInline(cg: Codegen, mc: Machine, stages: seq<TypedStage>, v: TValue, env: TEnv): Option<TValue>
    decreases stages, 0
  {
    if stages == [] then Some(v) else
      var next :- GraphStage(cg, mc, stages[0], v, env);
      GraphInline(cg, mc, stages[1..], next, env)
  }

  /** A match has no value here: the instructions leave its arms out. */
  function GraphStage(cg: Codegen, mc: Machine, s: TypedStage, v: TValue, env: TEnv): Option<TValue>
    decreases s, 0
  {
    match s.kind
    case Call(name, _) => GraphCall(cg, mc, name, v)
    case Map(name) =>
      var ty :- MapType(cg, name, v.ty);
      Some(TValue(mc.call(Helper("map", name), [v.value]), ty))
    case Filter(name) =>
      var ty :- FilterType(cg, name, v.ty);
      Some(TValue(mc.call(Helper("filter", name), [v.value]), ty))
    case Repeat(node, count) =>
      var n :- GraphEndpoint(cg, mc, count, env);
      var ty :- cg.outputType(node, v.ty);
      Some(TValue(mc.call(Helper("repeat", node), [v.value, n.value]), ty))
    case Reduce(op, identity) =>
      var i :- GraphEndpoint(cg, mc, identity, env);
      var ty :- ReduceType(cg, op, v.ty, i.ty);
      Some(TValue(mc.call(Helper("reduce", op), [v.value, i.value]), ty))
    case Scan(op, identity) =>
      var i :- GraphEndpoint(cg, mc, identity, env);
      var ty :- ReduceType(cg, op, v.ty, i.ty);
      Some(TValue(mc.call(Helper("scan", op), [v.value, i.value]), Ty.Seq(ty)))
    case _ => None
  }

  function GraphBind(t: BindingTarget, v: TValue, env: TEnv): Option<TEnv>
    decreases t, 0
  {
    match t
    case Drop => Some(env)
    case Bound(x) => if x in env then None else Some(env[x := v])
    case Both(items) => if v.ty.Tuple? && |v.ty.items| == |items| then GraphBinds(items, v, 0, env) else None
  }

  function GraphBinds(ts: seq<BindingTarget>, v: TValue, index: nat, env: TEnv): Option<TEnv>
    requires v.ty.Tuple? && index + |ts| == |v.ty.items|
    decreases ts, 0
  {
    if ts == [] then Some(env) else
      var next :- GraphBind(ts[0], TValue(ItemAt(v.value, index), v.ty.items[index]), env);
      GraphBinds(ts[1..], v, index + 1, next)
  }

  function GraphStages(cg: Codegen, mc: Machine, stages: seq<TypedStage>, v: TValue, env: TEnv): Option<TEnv>
    decreases stages, 0
  {
    if stages == [] then Some(env) else
      match stages[0].kind
      case Bind(target) =>
        var next :- GraphBind(target, v, env);
        GraphStages(cg, mc, stages[1..], v, next)
      case FaultMap(node, ok, fault) =>
        var ty :- FaultMapType(cg, node, v.ty);
        var parts := mc.call(Helper("fault_map", node), [v.value]);
        var next := env[ok := TValue(ItemAt(parts, 0), ty.items[0])][fault := TValue(ItemAt(parts, 1), ty.items[1])];
        GraphStages(cg, mc, stages[1..], v, next)
      case _ =>
        var next :- GraphStage(cg, mc, stages[0], v, env);
        GraphStages(cg, mc, stages[1..], next, env)
  }

  function GraphChains(cg: Codegen, mc: Machine, chains: seq<TypedChain>, env: TEnv): Option<TEnv>
    decreases chains
  {
    if chains == [] then Some(env)
    else if !HasContext(cg, chains[0].source, chains[0].stages) then None
    else
      var v :- GraphEndpoint(cg, mc, chains[0].source, env);
      var next :- GraphStages(cg, mc, chains[0].stages, v, env);
      GraphChains(cg, mc, chains[1..], next)
  }

  /** The fields of the argument, by name; a later port hides an earlier one. */
  function GraphInputs(ports: seq<TypedPort>, v: LValue, ty: Ty, index: nat, env: TEnv): TEnv
    requires ty.Tuple? && index <= |ports|
    decreases |ports| - index
  {
    if index == |ports| || index >= |ty.items| then env
    else GraphInputs(ports, v, ty, index + 1, env[ports[index].name := TValue(ItemAt(v, index), ty.items[index])])
  }

  function GraphOutputs(ports: seq<TypedPort>, env: TEnv): (r: Option<seq<LValue>>)
    ensures r.Some? ==> |r.value| == |ports|
  {
    if ports == [] then Some([])
    else if ports[0].name !in env then None
    else
      var rest :- GraphOutputs(ports[1..], env);
      Some([env[ports[0].name].value] + rest)
  }

  function GraphEntered(c: TypedCallable, input: Ty, v: LValue): TEnv
    requires |c.inputs| > 1 ==> input.Tuple?
  {
    if c.inputs == [] then map[]
    else if |c.inputs| == 1 then map[c.inputs[0].name := TValue(v, input)]
    else GraphInputs(c.inputs, v, input, 0, map[])
  }

  /** No output is the unit value, one is itself, several are a tuple of the declared size. */
  function GraphReturned(ports: seq<TypedPort>, env: TEnv, output: Ty): Option<LValue>
  {
    var vs :- GraphOutputs(ports, env);
    if |vs| == 0 then Some(DefaultL(Ty.Unit))
    else if |vs| == 1 then Some(vs[0])
    else if output.Tuple? && |output.items| == |vs| then Some(AggL(vs))
    else None
  }

  function GraphCallable(cg: Codegen, mc: Machine, c: TypedCallable, input: Ty, output: Ty, v: LValue): Option<LValue>
  {
    if |c.inputs| > 1 && !input.Tuple? then None else
      var env :- GraphChains(cg, mc, c.chains, GraphEntered(c, input, v));
      GraphReturned(c.outputs, env, output)
  }

  // ---- Executing instructions ----

  function Fetch(op: Operand, m: map<nat, LValue>, input: LValue): LValue
  {
    match op
    case Input => input
    case Temp(n) => if n in m then m[n] else PoisonL
    case Poison => PoisonL
    case IntC(n) => IntL(n)
    case RealC(r) => RealL(r)
    case BoolC(b) => BoolL(b)
    case Default(ty) => DefaultL(ty)
  }

  /** An aggregate of the type's size with one field set; poison is an aggregate of poison. */
  function WithField(ty: Ty, agg: LValue, value: LValue, index: nat): LValue
  {
    if !ty.Tuple? || index >= |ty.items| then PoisonL
    else if agg.AggL? && |agg.items| == |ty.items| then AggL(agg.items[index := value])
    else if agg == PoisonL then AggL(seq(|ty.items|, _ => PoisonL)[index := value])
    else PoisonL
  }

  predicate IsFloat(t: Ty) { t == F32 || t == F64 }

  predicate IsInt(t: Ty) { t == I32 || t == I64 }

  /** The operation behind a mnemonic: an `f` for floats, an `s` for signed integers. */
  function OperationOf(op: string, t: Ty): Option<string>
  {
    if IsInt(t) then
      if op == "add" || op == "sub" || op == "mul" then Some(op)
      else if op == "sdiv" then Some("div")
      else if op == "srem" then Some("rem")
      else None
    else if IsFloat(t) then
      if op == "fadd" then Some("add") else if op == "fsub" then Some("sub") else if op == "fmul" then Some("mul")
      else if op == "fdiv" then Some("div") else None
    else None
  }

  function Step(mc: Machine, i: Instr, m: map<nat, LValue>, input: LValue): LValue
  {
    match i
    case Extract(_, _, agg, index) => ItemAt(Fetch(agg, m, input), index)
    case Insert(_, ty, agg, value, index) => WithField(ty, Fetch(agg, m, input), Fetch(value, m, input), index)
    case Invoke(_, _, callee, args) =>
      mc.call(callee, seq(|args|, k requires 0 <= k < |args| => Fetch(args[k].operand, m, input)))
    case Arith(_, op, ty, l, r) =>
      if OperationOf(op, ty).None? then PoisonL
      else mc.numeric(OperationOf(op, ty).value, ty, Fetch(l, m, input), Fetch(r, m, input))
    case Compare(_, order, ty, l, r) =>
      if (order == "olt" && IsFloat(ty)) || (order == "slt" && IsInt(ty)) then
        BoolL(mc.less(ty, Fetch(l, m, input), Fetch(r, m, input)))
      else if (order == "ogt" && IsFloat(ty)) || (order == "sgt" && IsInt(ty)) then
        BoolL(mc.less(ty, Fetch(r, m, input), Fetch(l, m, input)))
      else PoisonL
    case Choose(_, _, c, l, r) =>
      var cond := Fetch(c, m, input);
      if !cond.BoolL? then PoisonL else if cond.flag then Fetch(l, m, input) else Fetch(r, m, input)
  }

  function Execute(mc: Machine, code: seq<Instr>, input: LValue): map<nat, LValue>
  {
    if code == [] then map[] else
      var front := code[..|code| - 1];
      var i := code[|code| - 1];
      var m := Execute(mc, front, input);
      m[i.dest := Step(mc, i, m, input)]
  }

  // ---- Values along a growing state ----

  function ValueIn(mc: Machine, st: State, v: TextValue, input: LValue): TValue
  {
    TValue(Fetch(v.operand, Execute(mc, st.code, input), input), v.ty)
  }

  function EnvIn(mc: Machine, st: State, env: TextEnv, input: LValue): TEnv
  {
    map x | x in env :: ValueIn(mc, st, env[x], input)
  }

  lemma {:induction false} ExecuteDefines(mc: Machine, code: seq<Instr>, input: LValue)
    ensures Execute(mc, code, input).Keys == Defined(code)
  {
    if code != [] {
      var front := code[..|code| - 1];
      ExecuteDefines(mc, front, input);
      assert code == front + [code[|code| - 1]];
      assert forall k :: 0 <= k < |front| ==> code[k] == front[k];
      assert code[|front|].dest in Defined(code);
    }
  }

  /** Later instructions leave earlier temporaries alone. */
  lemma {:induction false} ExecuteKeeps(mc: Machine, code: seq<Instr>, more: seq<Instr>, input: LValue)
    requires Ssa(more) && code <= more
    ensures forall n :: n in Execute(mc, code, input) ==>
              n in Execute(mc, more, input) && Execute(mc, more, input)[n] == Execute(mc, code, input)[n]
    decreases |more|
  {
    if |code| < |more| {
      var front := more[..|more| - 1];
      assert Ssa(front) by {
        forall i | 0 <= i < |front|
          ensures Uses(front[i]) <= Defined(front[..i])
        {
          assert front[..i] == more[..i];
        }
      }
      ExecuteKeeps(mc, code, front, input);
      ExecuteDefines(mc, front, input);
      assert more[|more| - 1].dest !in Defined(front);
    } else {
      assert code == more;
    }
  }

  lemma ValueKept(mc: Machine, st: State, st': State, v: TextValue, input: LValue)
    requires Ready(st) && Grows(st, st') && Known(v.operand, st)
    ensures ValueIn(mc, st', v, input) == ValueIn(mc, st, v, input)
  {
    ExecuteKeeps(mc, st.code, st'.code, input);
    ExecuteDefines(mc, st.code, input);
  }

  lemma EnvKept(mc: Machine, st: State, st': State, env: TextEnv, input: LValue)
    requires Ready(st) && Grows(st, st') && EnvKnown(env, st)
    ensures EnvIn(mc, st', env, input) == EnvIn(mc, st, env, input)
    ensures EnvKnown(env, st')
  {
    forall x | x in env
      ensures ValueIn(mc, st', env[x], input) == ValueIn(mc, st, env[x], input)
    {
      ValueKept(mc, st, st', env[x], input);
    }
  }

  /** The value of an instruction that has just been added. */
  lemma ExecuteLast(mc: Machine, code: seq<Instr>, i: Instr, input: LValue)
    ensures Execute(mc, code + [i], input)
         == Execute(mc, code, input)[i.dest := Step(mc, i, Execute(mc, code, input), input)]
  {
    assert (code + [i])[..|code|] == code;
  }
}
