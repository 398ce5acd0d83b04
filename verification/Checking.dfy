/** The two checkers of src/typecheck.rs: one only decides (1542-1872, 2287-2355), one also annotates (445-971). */
module Checking {
  import opened Ast
  import opened Types
  import opened Typed
  import opened TypeMatching
  import opened Assignability

  type Env = map<string, Ty>

  /**
   * What both checkers look up in the same place: the type of a node's result, with the flag for a node
   * inside an inline evaluation, and the tables of structs, declared types and symbols; `listed` says whether a
   * callable that has a signature there is pure.
   */
  datatype Rules = Rules(
    node: (bool, NodeRef, Ty) -> Option<Ty>,
    mapped: (bool, NodeRef, Ty) -> Option<Ty>,
    faultMapped: (NodeRef, Ty) -> Option<(Ty, Ty)>,
    filtered: (bool, NodeRef, Ty) -> Option<Ty>,
    repeated: (bool, NodeRef, Ty) -> Option<Ty>,
    reduced: (bool, NodeRef, Ty, Ty) -> Option<Ty>,
    scanned: (bool, NodeRef, Ty, Ty) -> Option<Ty>,
    isGuard: NodeRef -> bool,
    structs: map<string, Ty>,
    declared: TypeText -> Option<Ty>,
    listed: string -> Option<bool>,
    text: NodeRef -> string,
    symbol: string -> Option<SymbolId>,
    realOf: string -> real)

  // ---- Shared helpers ----

  predicate Expects(actual: Ty, expected: Ty) { MatchTy(expected, actual, map[]).Some? }

  function SequenceItem(l: Ty, r: Ty): Option<Ty>
  {
    if l == r then Some(l)
    else if l.EmptySeq? then Some(r)
    else if r.EmptySeq? then Some(l)
    else if l.Faultable? && l.item == r then Some(l)
    else if r.Faultable? && r.item == l then Some(r)
    else None
  }

  /** The item type of a sequence literal; `None` inside is the empty one. */
  function SequenceItems(sofar: Option<Ty>, ts: seq<Ty>): Option<Ty>
    decreases |ts|
  {
    if ts == [] then Some(if sofar.None? then EmptySeq else Ty.Seq(sofar.value))
    else if sofar.None? then SequenceItems(Some(ts[0]), ts[1..])
    else
      var next :- SequenceItem(sofar.value, ts[0]);
      SequenceItems(Some(next), ts[1..])
  }

  /** The type of the arms so far and one more. */
  function Joined(sofar: Option<Ty>, out: Ty): Option<Ty>
  {
    if sofar.None? then Some(out) else CommonType(sofar.value, out)
  }

  function SingleOrTuple(ts: seq<Ty>): Ty { if |ts| == 1 then ts[0] else Ty.Tuple(ts) }

  function FieldType(fields: seq<TyField>, name: string): Option<Ty>
  {
    if fields == [] then None else if fields[0].name == name then Some(fields[0].ty) else FieldType(fields[1..], name)
  }

  function FieldOfType(t: Ty, name: string): Option<Ty> { if t.Struct? then FieldType(t.fields, name) else None }

  /** An item of a tuple that may be a fault. */
  function Projection(t: Ty): Ty { if t.Faultable? then t else Faultable(t) }

  /** The names a target binds, with their types; a faultable tuple binds faultable items. */
  function TargetTypes(t: BindingTarget, ty: Ty): Option<seq<TypedPort>>
    decreases t, 0
  {
    match t
    case Drop => Some([])
    case Bound(x) => Some([TypedPort(x, ty)])
    case Both(items) =>
      if ty.Tuple? && |ty.items| == |items| then TargetListTypes(items, ty.items)
      else if ty.Faultable? && ty.item.Tuple? && |ty.item.items| == |items| then
        TargetListTypes(items, seq(|items|, i requires 0 <= i < |items| => Projection(ty.item.items[i])))
      else None
  }

  function TargetListTypes(ts: seq<BindingTarget>, tys: seq<Ty>): Option<seq<TypedPort>>
    requires |ts| == |tys|
    decreases ts, 0
  {
    if ts == [] then Some([]) else
      var first :- TargetTypes(ts[0], tys[0]);
      var rest :- TargetListTypes(ts[1..], tys[1..]);
      Some(first + rest)
  }

  /** Each name once, and with a known item type. */
  function BindAll(ports: seq<TypedPort>, env: Env): Option<Env>
    decreases |ports|
  {
    if ports == [] then Some(env)
    else if HasEmptySeq(ports[0].ty) || ports[0].name in env then None
    else BindAll(ports[1..], env[ports[0].name := ports[0].ty])
  }

  function BindFaultMap(ok: string, fault: string, types: (Ty, Ty), env: Env): Option<Env>
  {
    if ok in env || fault in env || ok == fault then None else Some(env[ok := types.0][fault := types.1])
  }

  // ---- The checker that decides ----

  function EndpointType(r: Rules, e: Endpoint, env: Env): Option<Ty>
    decreases e, 0
  {
    match e
    case Variable(x) => if x in env then Some(env[x]) else None
    case Name(_) => None
    case Int(_) => Some(I64)
    case Real(_) => Some(F64)
    case RealF32(_) => Some(F32)
    case Bool(_) => Some(Ty.Bool)
    case Str(_) => Some(Bytes)
    case Unit => Some(Ty.Unit)
    case Tuple(items) =>
      var ts :- ItemTypes(r, items, env);
      Some(Ty.Tuple(ts))
    case Seq(items) =>
      var ts :- ItemTypes(r, items, env);
      SequenceItems(None, ts)
    case Struct(name, fields) =>
      if name !in r.structs || !r.structs[name].Struct? || |fields| != |r.structs[name].fields| then None
      else if FieldsFit(r, r.structs[name].fields, fields, {}, env) then Some(r.structs[name]) else None
    case Eval(source, stages) =>
      var t :- EndpointType(r, source, env);
      InlineType(r, stages, t, env)
  }

  function ItemTypes(r: Rules, items: seq<Endpoint>, env: Env): Option<seq<Ty>>
    decreases items, 0
  {
    if items == [] then Some([]) else
      var t :- EndpointType(r, items[0], env);
      var ts :- ItemTypes(r, items[1..], env);
      Some([t] + ts)
  }

  predicate FieldsFit(r: Rules, expected: seq<TyField>, fields: seq<Field>, seen: set<string>, env: Env)
    decreases fields, 0
  {
    fields == [] ||
    (var t := EndpointType(r, fields[0].value, env);
     && FieldType(expected, fields[0].name).Some? && fields[0].name !in seen
     && t.Some? && Assignable(FieldType(expected, fields[0].name).value, t.value)
     && FieldsFit(r, expected, fields[1..], seen + {fields[0].name}, env))
  }

  function InlineType(r: Rules, stages: seq<Stage>, t: Ty, env: Env): Option<Ty>
    decreases stages, 0
  {
    if stages == [] then Some(t) else
      var next :- StageType(r, true, stages[0], t, env);
      InlineType(r, stages[1..], next, env)
  }

  /** The stages that hand a value on. */
  function StageType(r: Rules, inline: bool, s: Stage, t: Ty, env: Env): Option<Ty>
    decreases s, 0
  {
    match s
    case Value(e) => if e.Name? then r.node(inline, e.node, t) else None
    case Bind(_) => None
    case FaultMap(_, _, _) => None
    case Map(n) => r.mapped(inline, n, t)
    case Filter(n) => r.filtered(inline, n, t)
    case FieldOf(f) => FieldOfType(t, f)
    case Repeat(count, n) =>
      var c :- EndpointType(r, count, env);
      if Expects(c, I64) then r.repeated(inline, n, t) else None
    case Reduce(n, identity) =>
      var i :- EndpointType(r, identity, env);
      r.reduced(inline, n, t, i)
    case Scan(n, identity) =>
      var i :- EndpointType(r, identity, env);
      r.scanned(inline, n, t, i)
    case Match(arms) =>
      if arms == [] || !arms[|arms| - 1].guard.Fallback? then None else ArmsType(r, inline, None, arms, t, env)
  }

  function ArmsType(r: Rules, inline: bool, sofar: Option<Ty>, arms: seq<MatchArm>, t: Ty, env: Env): Option<Ty>
    decreases arms, 0
  {
    if arms == [] then sofar
    else if arms[0].guard.Fallback? && |arms| > 1 then None
    else
      var out :- ArmType(r, inline, arms[0], t, env);
      var next :- Joined(sofar, out);
      ArmsType(r, inline, Some(next), arms[1..], t, env)
  }

  function ArmType(r: Rules, inline: bool, arm: MatchArm, t: Ty, env: Env): Option<Ty>
    decreases arm, 0
  {
    if GuardFits(r, inline, arm.guard, t, env) then TargetType(r, inline, arm.target, t, env) else None
  }

  predicate GuardFits(r: Rules, inline: bool, g: MatchGuard, t: Ty, env: Env)
    decreases g, 0
  {
    match g
    case Fallback => true
    case Call(n, args) =>
      r.isGuard(n) &&
      var ts := ItemTypes(r, args, env);
      ts.Some? &&
      var out := r.node(inline, n, SingleOrTuple([t] + ts.value));
      out.Some? && Expects(out.value, Ty.Bool)
  }

  function TargetType(r: Rules, inline: bool, target: MatchTarget, t: Ty, env: Env): Option<Ty>
    decreases target, 0
  {
    match target
    case ToNode(n) => r.node(inline, n, t)
    case ToValue(e) => EndpointType(r, e, env)
  }

  function CheckStages(r: Rules, stages: seq<Stage>, t: Ty, env: Env): Option<Env>
    decreases |stages|
  {
    if stages == [] then Some(env)
    else if |stages| == 1 && stages[0].Bind? then
      var ports :- TargetTypes(stages[0].target, t);
      BindAll(ports, env)
    else if |stages| == 1 && stages[0].FaultMap? then
      var types :- r.faultMapped(stages[0].node, t);
      BindFaultMap(stages[0].ok, stages[0].fault, types, env)
    else
      var next :- StageType(r, false, stages[0], t, env);
      CheckStages(r, stages[1..], next, env)
  }

  function CheckChains(r: Rules, chains: seq<Chain>, env: Env): Option<Env>
    decreases |chains|
  {
    if chains == [] then Some(env) else
      var t :- EndpointType(r, chains[0].source, env);
      var next :- CheckStages(r, chains[0].stages, t, env);
      CheckChains(r, chains[1..], next)
  }

  // ---- The checker that annotates ----

  function TypeEndpoint(r: Rules, e: Endpoint, env: Env): Option<TypedEndpoint>
    decreases e, 1
  {
    match e
    case Variable(x) => if x in env then Some(TypedEndpoint(env[x], EndpointKind.Variable(x))) else None
    case Name(_) => None
    case Int(n) => Some(TypedEndpoint(I64, EndpointKind.Int(n)))
    case Real(text) => Some(TypedEndpoint(F64, EndpointKind.Real(r.realOf(text))))
    case RealF32(text) => Some(TypedEndpoint(F32, EndpointKind.RealF32(r.realOf(text))))
    case Bool(b) => Some(TypedEndpoint(Ty.Bool, EndpointKind.Bool(b)))
    case Str(s) => Some(TypedEndpoint(Bytes, EndpointKind.Str(s)))
    case Unit => Some(TypedEndpoint(Ty.Unit, EndpointKind.Unit))
    case Tuple(items) =>
      var ts :- TypeItems(r, items, env);
      Some(TypedEndpoint(Ty.Tuple(TypesOf(ts)), EndpointKind.Tuple(ts)))
    case Seq(items) =>
      var ts :- TypeItems(r, items, env);
      var ty :- SequenceItems(None, TypesOf(ts));
      Some(TypedEndpoint(ty, EndpointKind.Seq(ts)))
    case Struct(name, fields) =>
      var ty :- EndpointType(r, e, env);
      var fs :- TypeFields(r, fields, env);
      Some(TypedEndpoint(ty, EndpointKind.Struct(name, fs)))
    case Eval(source, stages) =>
      var s :- TypeEndpoint(r, source, env);
      var ss :- TypeInline(r, stages, s.ty, env);
      Some(TypedEndpoint(LastOutput(s.ty, ss), EndpointKind.Eval(s, ss)))
  }

  function TypesOf(es: seq<TypedEndpoint>): (ts: seq<Ty>)
    ensures |ts| == |es| && forall i :: 0 <= i < |es| ==> ts[i] == es[i].ty
  {
    seq(|es|, i requires 0 <= i < |es| => es[i].ty)
  }

  function LastOutput(t: Ty, ss: seq<TypedStage>): Ty { if ss == [] then t else ss[|ss| - 1].output }

  function TypeItems(r: Rules, items: seq<Endpoint>, env: Env): Option<seq<TypedEndpoint>>
    decreases items, 1
  {
    if items == [] then Some([]) else
      var t :- TypeEndpoint(r, items[0], env);
      var ts :- TypeItems(r, items[1..], env);
      Some([t] + ts)
  }

  function TypeFields(r: Rules, fields: seq<Field>, env: Env): Option<seq<TypedField>>
    decreases fields, 1
  {
    if fields == [] then Some([]) else
      var t :- TypeEndpoint(r, fields[0].value, env);
      var ts :- TypeFields(r, fields[1..], env);
      Some([TypedField(fields[0].name, t)] + ts)
  }

  /** Stages that bind are refused before they are typed. */
  function TypeInline(r: Rules, stages: seq<Stage>, t: Ty, env: Env): Option<seq<TypedStage>>
    decreases stages, 1
  {
    if stages == [] then Some([])
    else if stages[0].Bind? || stages[0].FaultMap? || (stages[0].Value? && !stages[0].endpoint.Name?) then None
    else
      var s :- TypeStage(r, true, stages[0], t, false, env);
      var ss :- TypeInline(r, stages[1..], s.0.output, s.1);
      Some([s.0] + ss)
  }

  /** A stage with its input and output type, and the names bound after it. */
  function TypeStage(r: Rules, inline: bool, s: Stage, t: Ty, isLast: bool, env: Env): Option<(TypedStage, Env)>
    decreases s, 1
  {
    match s
    case Bind(target) =>
      if !isLast then None else
        var ports :- TargetTypes(target, t);
        var next :- BindAll(ports, env);
        Some((TypedStage(t, t, StageKind.Bind(target)), next))
    case FaultMap(n, ok, fault) =>
      if !isLast then None else
        var types :- r.faultMapped(n, t);
        var next :- BindFaultMap(ok, fault, types, env);
        Some((TypedStage(t, Ty.Tuple([types.0, types.1]), StageKind.FaultMap(r.text(n), ok, fault)), next))
    case Value(e) =>
      if !e.Name? then None else
        var out :- r.node(inline, e.node, t);
        Some((TypedStage(t, out, StageKind.Call(r.text(e.node), r.symbol(r.text(e.node)))), env))
    case Map(n) =>
      var out :- r.mapped(inline, n, t);
      Some((TypedStage(t, out, StageKind.Map(r.text(n))), env))
    case Filter(n) =>
      var out :- r.filtered(inline, n, t);
      Some((TypedStage(t, out, StageKind.Filter(r.text(n))), env))
    case FieldOf(f) =>
      var out :- FieldOfType(t, f);
      Some((TypedStage(t, out, StageKind.FieldOf(f)), env))
    case Repeat(count, n) =>
      var c :- TypeEndpoint(r, count, env);
      if !Expects(c.ty, I64) then None else
        var out :- r.repeated(inline, n, t);
        Some((TypedStage(t, out, StageKind.Repeat(r.text(n), c)), env))
    case Reduce(n, identity) =>
      var i :- TypeEndpoint(r, identity, env);
      var out :- r.reduced(inline, n, t, i.ty);
      Some((TypedStage(t, out, StageKind.Reduce(r.text(n), i)), env))
    case Scan(n, identity) =>
      var i :- TypeEndpoint(r, identity, env);
      var out :- r.scanned(inline, n, t, i.ty);
      Some((TypedStage(t, out, StageKind.Scan(r.text(n), i)), env))
    case Match(arms) =>
      if arms == [] || !arms[|arms| - 1].guard.Fallback? then None else
        var typed :- TypeArms(r, inline, None, arms, t, env);
        if typed.1.None? then None else Some((TypedStage(t, typed.1.value, StageKind.Match(typed.0)), env))
  }

  function TypeArms(r: Rules, inline: bool, sofar: Option<Ty>, arms: seq<MatchArm>, t: Ty, env: Env)
    : Option<(seq<TypedArm>, Option<Ty>)>
    decreases arms, 1
  {
    if arms == [] then Some(([], sofar))
    else if arms[0].guard.Fallback? && |arms| > 1 then None
    else
      var arm :- TypeArm(r, inline, arms[0], t, env);
      var next :- Joined(sofar, arm.output);
      var rest :- TypeArms(r, inline, Some(next), arms[1..], t, env);
      Some(([arm] + rest.0, rest.1))
  }

  function TypeArm(r: Rules, inline: bool, arm: MatchArm, t: Ty, env: Env): Option<TypedArm>
    decreases arm, 1
  {
    var g :- TypeGuard(r, inline, arm.guard, t, env);
    var target :- TypeTarget(r, inline, arm.target, t, env);
    Some(TypedArm(g, target.0, target.1))
  }

  function TypeGuard(r: Rules, inline: bool, g: MatchGuard, t: Ty, env: Env): Option<TypedGuard>
    decreases g, 1
  {
    match g
    case Fallback => Some(GuardFallback)
    case Call(n, args) =>
      if !r.isGuard(n) then None else
        var ts :- TypeItems(r, args, env);
        var out :- r.node(inline, n, SingleOrTuple([t] + TypesOf(ts)));
        if Expects(out, Ty.Bool) then Some(GuardCall(r.text(n), ts)) else None
  }

  function TypeTarget(r: Rules, inline: bool, target: MatchTarget, t: Ty, env: Env): Option<(TypedTarget, Ty)>
    decreases target, 1
  {
    match target
    case ToNode(n) =>
      var out :- r.node(inline, n, t);
      Some((TargetNode(r.text(n)), out))
    case ToValue(e) =>
      var v :- TypeEndpoint(r, e, env);
      Some((TargetValue(v), v.ty))
  }

  function TypeStages(r: Rules, stages: seq<Stage>, t: Ty, env: Env): Option<(seq<TypedStage>, Env)>
    decreases |stages|
  {
    if stages == [] then Some(([], env)) else
      var s :- TypeStage(r, false, stages[0], t, |stages| == 1, env);
      var rest :- TypeStages(r, stages[1..], s.0.output, s.1);
      Some(([s.0] + rest.0, rest.1))
  }

  function TypeChains(r: Rules, chains: seq<Chain>, env: Env): Option<(seq<TypedChain>, Env)>
    decreases |chains|
  {
    if chains == [] then Some(([], env)) else
      var s :- TypeEndpoint(r, chains[0].source, env);
      var ss :- TypeStages(r, chains[0].stages, s.ty, env);
      var rest :- TypeChains(r, chains[1..], ss.1);
      Some(([TypedChain(s, ss.0)] + rest.0, rest.1))
  }

  // ---- Callables ----

  /** Inputs are declared once each. */
  function InputEnv(r: Rules, ports: seq<Port>, env: Env): Option<Env>
    decreases |ports|
  {
    if ports == [] then Some(env) else
      var ty :- r.declared(ports[0].ty);
      if ports[0].name in env then None else InputEnv(r, ports[1..], env[ports[0].name := ty])
  }

  function TypePorts(r: Rules, ports: seq<Port>): Option<seq<TypedPort>>
    decreases |ports|
  {
    if ports == [] then Some([]) else
      var ty :- r.declared(ports[0].ty);
      var rest :- TypePorts(r, ports[1..]);
      Some([TypedPort(ports[0].name, ty)] + rest)
  }

  /** Outputs are bound, to something of their type. */
  predicate OutputsFit(r: Rules, ports: seq<Port>, env: Env)
    decreases |ports|
  {
    ports == [] ||
    (var ty := r.declared(ports[0].ty);
     && ty.Some? && ports[0].name in env && Assignable(ty.value, env[ports[0].name])
     && OutputsFit(r, ports[1..], env))
  }

  predicate MayHaveParameters(c: Callable, isProgram: bool) { c.nodeParams != [] ==> !isProgram && !c.isExtern }

  function CheckCallable(r: Rules, c: Callable, isProgram: bool): Option<Env>
  {
    if !MayHaveParameters(c, isProgram) then None else
      var start :- InputEnv(r, c.inputs, map[]);
      var env :- CheckChains(r, c.chains, start);
      if OutputsFit(r, c.outputs, env) then Some(env) else None
  }

  function TypeCallable(r: Rules, c: Callable, isProgram: bool): Option<(TypedCallable, Env)>
  {
    if !MayHaveParameters(c, isProgram) then None else
      var start :- InputEnv(r, c.inputs, map[]);
      var inputs :- TypePorts(r, c.inputs);
      var typed :- TypeChains(r, c.chains, start);
      if !OutputsFit(r, c.outputs, typed.1) then None else
        var outputs :- TypePorts(r, c.outputs);
        var isPure :- r.listed(c.name);
        Some((TypedCallable(r.symbol(c.name), c.name, isPure, inputs, outputs, typed.0), typed.1))
  }

  // ---- The loops over chains ----

  method CheckChain(r: Rules, chain: Chain, start: Env) returns (result: Option<Env>)
    ensures result == CheckChains(r, [chain], start)
  {
    assert [chain][1..] == [];
    var env := start;
    var first := EndpointType(r, chain.source, env);
    if first.None? {
      return None;
    }
    var t := first.value;
    for i := 0 to |chain.stages|
      invariant CheckStages(r, chain.stages[i..], t, env) == CheckStages(r, chain.stages, first.value, start)
      invariant env == start || i == |chain.stages|
    {
      assert chain.stages[i..][1..] == chain.stages[i + 1..];
      var s := chain.stages[i];
      var isLast := i + 1 == |chain.stages|;
      if s.Bind? && isLast {
        var ports := TargetTypes(s.target, t);
        var next := if ports.None? then None else BindAll(ports.value, env);
        return next;
      } else if s.FaultMap? && isLast {
        var types := r.faultMapped(s.node, t);
        var next := if types.None? then None else BindFaultMap(s.ok, s.fault, types.value, env);
        return next;
      }
      var out := StageType(r, false, s, t, env);
      if out.None? {
        return None;
      }
      t := out.value;
    }
    return Some(env);
  }

  method TypeChain(r: Rules, chain: Chain, start: Env) returns (result: Option<(TypedChain, Env)>)
    ensures
      var spec := TypeChains(r, [chain], start);
      if spec.None? then result.None? else result.Some? && spec.value == ([result.value.0], result.value.1)
  {
    assert [chain][1..] == [];
    var source := TypeEndpoint(r, chain.source, start);
    if source.None? {
      return None;
    }
    var t, env := source.value.ty, start;
    var stages: seq<TypedStage> := [];
    for i := 0 to |chain.stages|
      invariant
        var all := TypeStages(r, chain.stages, source.value.ty, start);
        var rest := TypeStages(r, chain.stages[i..], t, env);
        if rest.None? then all.None? else all.Some? && all.value.0 == stages + rest.value.0 && all.value.1 == rest.value.1
    {
      assert chain.stages[i..][1..] == chain.stages[i + 1..];
      var s := TypeStage(r, false, chain.stages[i], t, i + 1 == |chain.stages|, env);
      if s.None? {
        return None;
      }
      ghost var rest := TypeStages(r, chain.stages[i + 1..], s.value.0.output, s.value.1);
      assert rest.Some? ==> stages + ([s.value.0] + rest.value.0) == stages + [s.value.0] + rest.value.0;
      stages := stages + [s.value.0];
      t := s.value.0.output;
      env := s.value.1;
    }
    assert chain.stages[|chain.stages|..] == [];
    assert TypeStages(r, [], t, env) == Some(([], env)) && stages + [] == stages;
    assert TypeChains(r, [], env) == Some(([], env));
    assert [TypedChain(source.value, stages)] + [] == [TypedChain(source.value, stages)];
    return Some((TypedChain(source.value, stages), env));
  }
}
