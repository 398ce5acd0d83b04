/** The instructions that src/codegen/llvm_text.rs writes for a callable. */
module SsaEmission {
  import opened Ast
  import opened Types
  import opened Typed

  // ---- Instructions ----

  datatype Operand =
    | Input
    | Temp(n: nat)
    | Poison
    | IntC(value: int)
    | RealC(r: real)
    | BoolC(flag: bool)
    | Default(ty: Ty)

  datatype Callee =
    | User(name: string)
    | Foreign(symbol: string)
    | Builtin(name: string)
    | Helper(stage: string, name: string)

  datatype Instr =
    | Extract(dest: nat, ty: Ty, agg: Operand, index: nat)
    | Insert(dest: nat, ty: Ty, agg: Operand, value: Operand, index: nat)
    | Invoke(dest: nat, ty: Ty, callee: Callee, args: seq<TextValue>)
    | Arith(dest: nat, op: string, ty: Ty, left: Operand, right: Operand)
    | Compare(dest: nat, order: string, ty: Ty, left: Operand, right: Operand)
    | Choose(dest: nat, ty: Ty, cond: Operand, left: Operand, right: Operand)

  datatype TextValue = TextValue(operand: Operand, ty: Ty)

  type TextEnv = map<string, TextValue>

  datatype Declaration = Declaration(callee: Callee, output: Ty, inputs: seq<Ty>)

  /** The next free temporary, the instructions so far, and the functions declared for them. */
  datatype State = State(temp: nat, code: seq<Instr>, declarations: set<Declaration>)

  /** What the rest of the compiler knows of names: the types of calls and where a name is defined. */
  datatype Codegen = Codegen(
    outputType: (string, Ty) -> Option<Ty>,
    inputType: (string, Ty) -> Option<Ty>,
    callables: set<string>,
    foreign: map<string, string>,
    canonical: string -> string)

  // ---- Single instructions ----

  function Add(st: State, i: Instr): State { st.(temp := st.temp + 1, code := st.code + [i]) }

  function Declare(st: State, callee: Callee, output: Ty, inputs: seq<Ty>): State
  {
    st.(declarations := st.declarations + {Declaration(callee, output, inputs)})
  }

  function ItemTypes(t: Ty): Option<seq<Ty>> { if t.Tuple? then Some(t.items) else None }

  function ExtractField(st: State, v: TextValue, index: nat): Option<(Operand, State)>
  {
    var items :- ItemTypes(v.ty);
    if index < |items| then Some((Temp(st.temp), Add(st, Extract(st.temp, v.ty, v.operand, index)))) else None
  }

  function InvokeHelper(st: State, callee: Callee, output: Ty, args: seq<TextValue>): (TextValue, State)
  {
    var declared := Declare(st, callee, output, seq(|args|, i requires 0 <= i < |args| => args[i].ty));
    (TextValue(Temp(st.temp), output),
     Add(declared, Invoke(st.temp, output, callee, args)))
  }

  // ---- Calls ----

  function NumericInstruction(name: string, t: Ty): Option<string>
  {
    var isInt := t == I32 || t == I64;
    var isFloat := t == F32 || t == F64;
    if !isInt && !isFloat then None
    else if name == "add" then Some(if isInt then "add" else "fadd")
    else if name == "sub" then Some(if isInt then "sub" else "fsub")
    else if name == "mul" then Some(if isInt then "mul" else "fmul")
    else if name == "div" then Some(if isInt then "sdiv" else "fdiv")
    else if name == "rem" then if isInt then Some("srem") else None
    else if name == "min" || name == "max" then Some("select")
    else None
  }

  /** Two operands of the result's type, for an operation that is one instruction. */
  predicate IsNumeric(name: string, input: Ty, output: Ty)
  {
    && input.Tuple? && |input.items| == 2
    && input.items[0] == input.items[1] == output
    && NumericInstruction(name, output).Some?
  }

  /** A minimum or maximum takes its temporary before that of its comparison. */
  function EmitNumeric(st: State, name: string, input: TextValue, output: Ty): (TextValue, State)
    requires IsNumeric(name, input.ty, output)
  {
    var left := ExtractField(st, input, 0).value;
    var right := ExtractField(left.1, input, 1).value;
    var t := right.1.temp;
    if name == "min" || name == "max" then
      var order := if output == F32 || output == F64 then "o" else "s";
      var compare := Compare(t + 1, order + (if name == "min" then "lt" else "gt"), output, left.0, right.0);
      var choose := Choose(t, output, Temp(t + 1), left.0, right.0);
      (TextValue(Temp(t), output), right.1.(temp := t + 2, code := right.1.code + [compare] + [choose]))
    else
      var op := NumericInstruction(name, output).value;
      (TextValue(Temp(t), output), Add(right.1, Arith(t, op, output, left.0, right.0)))
  }

  function EmitCall(cg: Codegen, st: State, name: string, input: TextValue): Option<(TextValue, State)>
  {
    var output :- cg.outputType(name, input.ty);
    if name in cg.callables then
      Some((TextValue(Temp(st.temp), output), Add(st, Invoke(st.temp, output, Callee.User(name), [input]))))
    else if name in cg.foreign then Some(InvokeHelper(st, Callee.Foreign(cg.foreign[name]), output, [input]))
    else
      var builtin := cg.canonical(name);
      if IsNumeric(builtin, input.ty, output) then Some(EmitNumeric(st, builtin, input, output))
      else Some(InvokeHelper(st, Builtin(builtin), output, [input]))
  }

  // ---- Collections: one call of a helper each ----

  function MapType(cg: Codegen, name: string, input: Ty): Option<Ty>
  {
    if !input.Seq? && !input.Stream? then None else
      var item :- cg.outputType(name, input.item);
      Some(if input.Seq? then Ty.Seq(item) else Stream(item))
  }

  function FaultMapType(cg: Codegen, name: string, input: Ty): Option<Ty>
  {
    if !input.Seq? then None else
      var item :- cg.outputType(name, input.item);
      if item.Faultable? then Some(Ty.Tuple([Ty.Seq(item.item), Ty.Seq(Fault)])) else None
  }

  function FilterType(cg: Codegen, name: string, input: Ty): Option<Ty>
  {
    if !input.Seq? then None else
      var item :- cg.outputType(name, input.item);
      if item == Ty.Bool then Some(input) else None
  }

  function ReduceType(cg: Codegen, name: string, input: Ty, identity: Ty): Option<Ty>
  {
    if !input.Seq? || input.item != identity then None
    else if cg.canonical(name) in ["add", "min", "max"] then Some(input.item)
    else cg.outputType(name, input.item)
  }

  // ---- Endpoints and stages ----

  /** The context is asked for when it matters, and may have no answer. */
  predicate HasContext(cg: Codegen, source: TypedEndpoint, stages: seq<TypedStage>)
  {
    HasEmptySeq(source.ty) && stages != [] && stages[0].kind.Call? ==>
      cg.inputType(stages[0].kind.name, source.ty).Some?
  }

  function InsertAll(st: State, ty: Ty, values: seq<TextValue>, done: nat, current: Operand): (Operand, State)
    requires done <= |values|
    decreases |values| - done
  {
    if done == |values| then (current, st) else
      var next := Add(st, Insert(st.temp, ty, current, values[done].operand, done));
      InsertAll(next, ty, values, done + 1, Temp(st.temp))
  }

  function EmitEndpoint(cg: Codegen, st: State, e: TypedEndpoint, env: TextEnv): Option<(TextValue, State)>
    decreases e, 0
  {
    match e.kind
    case Variable(x) => if x in env then Some((env[x], st)) else None
    case NodeRef(_) => None
    case Int(n) => Some((TextValue(IntC(n), e.ty), st))
    case Real(r) => Some((TextValue(RealC(r), e.ty), st))
    case RealF32(r) => Some((TextValue(RealC(r), e.ty), st))
    case Bool(b) => Some((TextValue(BoolC(b), e.ty), st))
    case Str(_) => Some((TextValue(Default(Bytes), e.ty), st))
    case Unit => Some((TextValue(Default(e.ty), e.ty), st))
    case Tuple(items) =>
      var r :- EmitItems(cg, st, items, env);
      var built := InsertAll(r.1, e.ty, r.0, 0, Poison);
      Some((TextValue(built.0, e.ty), built.1))
    case Seq(_) => Some((TextValue(Default(e.ty), e.ty), st))
    case Struct(_, _) => None
    case Eval(source, stages) =>
      if !HasContext(cg, source, stages) then None else
        var r :- EmitEndpoint(cg, st, source, env);
        EmitInline(cg, r.1, stages, r.0, env)
  }

  function EmitItems(cg: Codegen, st: State, items: seq<TypedEndpoint>, env: TextEnv): Option<(seq<TextValue>, State)>
    decreases items, 0
  {
    if items == [] then Some(([], st)) else
      var first :- EmitEndpoint(cg, st, items[0], env);
      var rest :- EmitItems(cg, first.1, items[1..], env);
      Some(([first.0] + rest.0, rest.1))
  }

  function EmitInline(cg: Codegen, st: State, stages: seq<TypedStage>, v: TextValue, env: TextEnv)
    : Option<(TextValue, State)>
    decreases stages, 0
  {
    if stages == [] then Some((v, st)) else
      var r :- EmitStage(cg, st, stages[0], v, env);
      EmitInline(cg, r.1, stages[1..], r.0, env)
  }

  /** The stages that hand a value on. */
  function EmitStage(cg: Codegen, st: State, s: TypedStage, v: TextValue, env: TextEnv): Option<(TextValue, State)>
    decreases s, 0
  {
    match s.kind
    case Call(name, _) => EmitCall(cg, st, name, v)
    case Map(name) =>
      var ty :- MapType(cg, name, v.ty);
      Some(InvokeHelper(st, Helper("map", name), ty, [v]))
    case Filter(name) =>
      var ty :- FilterType(cg, name, v.ty);
      Some(InvokeHelper(st, Helper("filter", name), ty, [v]))
    case Repeat(node, count) =>
      var n :- EmitEndpoint(cg, st, count, env);
      var ty :- cg.outputType(node, v.ty);
      Some(InvokeHelper(n.1, Helper("repeat", node), ty, [v, n.0.(ty := I64)]))
    case Reduce(op, identity) =>
      var i :- EmitEndpoint(cg, st, identity, env);
      var ty :- ReduceType(cg, op, v.ty, i.0.ty);
      Some(InvokeHelper(i.1, Helper("reduce", op), ty, [v, i.0]))
    case Scan(op, identity) =>
      var i :- EmitEndpoint(cg, st, identity, env);
      var ty :- ReduceType(cg, op, v.ty, i.0.ty);
      Some(InvokeHelper(i.1, Helper("scan", op), Ty.Seq(ty), [v, i.0]))
    case Match(_) => Some(InvokeHelper(st, Helper("match", ""), s.output, [v]))
    case _ => None
  }

  // ---- Bindings, chains and callables ----

  function EmitBind(st: State, t: BindingTarget, v: TextValue, env: TextEnv): Option<(TextEnv, State)>
    decreases t, 0
  {
    match t
    case Drop => Some((env, st))
    case Bound(x) => if x in env then None else Some((env[x := v], st))
    case Both(items) =>
      var types :- ItemTypes(v.ty);
      if |types| == |items| then EmitBinds(st, items, v, 0, env) else None
  }

  /** Each item is taken out just before it is bound. */
  function EmitBinds(st: State, ts: seq<BindingTarget>, v: TextValue, index: nat, env: TextEnv)
    : Option<(TextEnv, State)>
    requires v.ty.Tuple? && index + |ts| == |v.ty.items|
    decreases ts, 0
  {
    if ts == [] then Some((env, st)) else
      var field :- ExtractField(st, v, index);
      var r :- EmitBind(field.1, ts[0], TextValue(field.0, v.ty.items[index]), env);
      EmitBinds(r.1, ts[1..], v, index + 1, r.0)
  }

  function EmitStages(cg: Codegen, st: State, stages: seq<TypedStage>, v: TextValue, env: TextEnv)
    : Option<(TextEnv, State)>
    decreases stages, 0
  {
    if stages == [] then Some((env, st)) else
      match stages[0].kind
      case Bind(target) =>
        var r :- EmitBind(st, target, v, env);
        EmitStages(cg, r.1, stages[1..], v, r.0)
      case FaultMap(node, ok, fault) =>
        var ty :- FaultMapType(cg, node, v.ty);
        var parts := InvokeHelper(st, Helper("fault_map", node), ty, [v]);
        var oks :- ExtractField(parts.1, parts.0, 0);
        var faults :- ExtractField(oks.1, parts.0, 1);
        var env' := env[ok := TextValue(oks.0, ty.items[0])][fault := TextValue(faults.0, ty.items[1])];
        EmitStages(cg, faults.1, stages[1..], v, env')
      case _ =>
        var r :- EmitStage(cg, st, stages[0], v, env);
        EmitStages(cg, r.1, stages[1..], r.0, env)
  }

  function EmitChains(cg: Codegen, st: State, chains: seq<TypedChain>, env: TextEnv): Option<(TextEnv, State)>
    decreases chains
  {
    if chains == [] then Some((env, st))
    else if !HasContext(cg, chains[0].source, chains[0].stages) then None
    else
      var source :- EmitEndpoint(cg, st, chains[0].source, env);
      var r :- EmitStages(cg, source.1, chains[0].stages, source.0, env);
      EmitChains(cg, r.1, chains[1..], r.0)
  }

  /** Several inputs are the items of the one argument. */
  function EmitInputs(st: State, ports: seq<TypedPort>, ty: Ty, index: nat, env: TextEnv): (TextEnv, State)
    requires ty.Tuple? && index <= |ports|
    decreases |ports| - index
  {
    if index == |ports| || index >= |ty.items| then (env, st) else
      var next := Add(st, Extract(st.temp, ty, Input, index));
      EmitInputs(next, ports, ty, index + 1, env[ports[index].name := TextValue(Temp(st.temp), ty.items[index])])
  }

  function OutputValues(ports: seq<TypedPort>, env: TextEnv): Option<seq<TextValue>>
  {
    if ports == [] then Some([])
    else if ports[0].name !in env then None
    else
      var rest :- OutputValues(ports[1..], env);
      Some([env[ports[0].name]] + rest)
  }

  function EmitOutputs(st: State, ports: seq<TypedPort>, env: TextEnv, ty: Ty): Option<(TextValue, State)>
  {
    if ports == [] then Some((TextValue(Default(Ty.Unit), Ty.Unit), st))
    else if |ports| == 1 then
      if ports[0].name in env then Some((env[ports[0].name], st)) else None
    else if !ty.Tuple? then None
    else
      var values :- OutputValues(if |ports| <= |ty.items| then ports else ports[..|ty.items|], env);
      var built := InsertAll(st, ty, values, 0, Poison);
      Some((TextValue(built.0, ty), built.1))
  }

  /** The state after the inputs have been taken apart; temporaries start over, declarations stay. */
  function Entered(c: TypedCallable, input: Ty, declared: set<Declaration>): (TextEnv, State)
    requires |c.inputs| > 1 ==> input.Tuple?
  {
    var start := State(0, [], declared);
    if c.inputs == [] then (map[], start)
    else if |c.inputs| == 1 then (map[c.inputs[0].name := TextValue(Input, input)], start)
    else EmitInputs(start, c.inputs, input, 0, map[])
  }

  datatype Function = Function(code: seq<Instr>, result: TextValue)

  function EmitCallable(cg: Codegen, c: TypedCallable, input: Ty, output: Ty, declared: set<Declaration>)
    : Option<(Function, State)>
  {
    if |c.inputs| > 1 && !input.Tuple? then None else
      var entered := Entered(c, input, declared);
      var body :- EmitChains(cg, entered.1, c.chains, entered.0);
      var r :- EmitOutputs(body.1, c.outputs, body.0, output);
      Some((Function(r.1.code, r.0), r.1))
  }
}
