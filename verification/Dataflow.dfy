/** What running a callable means: the values that flow along its chains, with node calls left to the caller. */
module Dataflow {
  import opened Ast

  datatype Value =
    | IntV(n: int)
    | RealV(text: string)
    | RealF32V(text: string)
    | BoolV(flag: bool)
    | BytesV(chars: string)
    | UnitV
    | TupleV(items: seq<Value>)
    | SeqV(items: seq<Value>)
    | StructV(typeName: string, fields: map<string, Value>)
    | OkV(value: Value)
    | FaultV(message: string)

  type Env = map<string, Value>

  /** The answer of a node to a value; `None` when it has none. */
  type Calls = (NodeRef, Value) -> Option<Value>

  // ---- Endpoints ----

  function RunEndpoint(e: Endpoint, env: Env, call: Calls): Option<Value>
    decreases e, 0
  {
    match e
    case Variable(x) => if x in env then Some(env[x]) else None
    case Name(_) => None
    case Int(n) => Some(IntV(n))
    case Real(text) => Some(RealV(text))
    case RealF32(text) => Some(RealF32V(text))
    case Bool(b) => Some(BoolV(b))
    case Str(s) => Some(BytesV(s))
    case Unit => Some(UnitV)
    case Tuple(items) =>
      var vs :- RunItems(items, env, call);
      Some(TupleV(vs))
    case Seq(items) =>
      var vs :- RunItems(items, env, call);
      Some(SeqV(vs))
    case Struct(name, fields) =>
      var vs :- RunFields(fields, env, call);
      Some(StructV(name, vs))
    case Eval(source, stages) =>
      var v :- RunEndpoint(source, env, call);
      RunInline(stages, v, env, call)
  }

  function RunItems(items: seq<Endpoint>, env: Env, call: Calls): Option<seq<Value>>
    decreases items, 0
  {
    if items == [] then Some([]) else
      var v :- RunEndpoint(items[0], env, call);
      var vs :- RunItems(items[1..], env, call);
      Some([v] + vs)
  }

  function RunFields(fields: seq<Field>, env: Env, call: Calls): Option<map<string, Value>>
    decreases fields, 0
  {
    if fields == [] then Some(map[]) else
      var v :- RunEndpoint(fields[0].value, env, call);
      var vs :- RunFields(fields[1..], env, call);
      if fields[0].name in vs then None else Some(vs[fields[0].name := v])
  }

  // ---- Stages ----

  function RunInline(stages: seq<Stage>, v: Value, env: Env, call: Calls): Option<Value>
    decreases stages, 0
  {
    if stages == [] then Some(v) else
      var next :- RunStage(stages[0], v, env, call);
      RunInline(stages[1..], next, env, call)
  }

  /** A stage that hands a value on; binding stages are dealt with by `RunStages`. */
  function RunStage(s: Stage, v: Value, env: Env, call: Calls): Option<Value>
    decreases s, 0
  {
    match s
    case Value(e) => if e.Name? then call(e.node, v) else None
    case Bind(_) => None
    case FaultMap(_, _, _) => None
    case Map(r) =>
      if !v.SeqV? then None else
        var vs :- MapAll(r, v.items, call);
        Some(SeqV(vs))
    case Filter(r) =>
      if !v.SeqV? then None else
        var vs :- FilterAll(r, v.items, call);
        Some(SeqV(vs))
    case FieldOf(f) => if v.StructV? && f in v.fields then Some(v.fields[f]) else None
    case Repeat(count, r) =>
      var n :- RunEndpoint(count, env, call);
      if n.IntV? then RepeatCall(r, if n.n < 0 then 0 else n.n, v, call) else None
    case Reduce(r, identity) =>
      var start :- RunEndpoint(identity, env, call);
      if v.SeqV? then FoldAll(r, start, v.items, call) else None
    case Scan(r, identity) =>
      var start :- RunEndpoint(identity, env, call);
      if !v.SeqV? then None else
        var vs :- ScanAll(r, start, v.items, call);
        Some(SeqV(vs))
    case Match(arms) => RunArms(arms, v, env, call)
  }

  /** Guards run from the top, and only the first arm that holds is run. */
  function RunArms(arms: seq<MatchArm>, v: Value, env: Env, call: Calls): Option<Value>
    decreases arms, 0
  {
    if arms == [] then None else
      var chosen :- RunArm(arms[0], v, env, call);
      if arms[0].guard.Fallback? && |arms| > 1 then None
      else if chosen.Some? then chosen
      else RunArms(arms[1..], v, env, call)
  }

  /** The value of an arm whose guard holds, `Some(None)` for one that is passed over. */
  function RunArm(arm: MatchArm, v: Value, env: Env, call: Calls): Option<Option<Value>>
    decreases arm, 0
  {
    var holds :- RunGuard(arm.guard, v, env, call);
    if !holds then Some(None) else
      var w :- RunTarget(arm.target, v, env, call);
      Some(Some(w))
  }

  function RunGuard(g: MatchGuard, v: Value, env: Env, call: Calls): Option<bool>
    decreases g, 0
  {
    match g
    case Fallback => Some(true)
    case Call(r, args) =>
      var vs :- RunItems(args, env, call);
      var holds :- call(r, if args == [] then v else TupleV([v] + vs));
      if holds.BoolV? then Some(holds.flag) else None
  }

  function RunTarget(t: MatchTarget, v: Value, env: Env, call: Calls): Option<Value>
    decreases t, 0
  {
    match t
    case ToNode(r) => call(r, v)
    case ToValue(e) => RunEndpoint(e, env, call)
  }

  function MapAll(r: NodeRef, vs: seq<Value>, call: Calls): Option<seq<Value>>
  {
    if vs == [] then Some([]) else
      var first :- call(r, vs[0]);
      var rest :- MapAll(r, vs[1..], call);
      Some([first] + rest)
  }

  function FilterAll(r: NodeRef, vs: seq<Value>, call: Calls): Option<seq<Value>>
  {
    if vs == [] then Some([]) else
      var keep :- call(r, vs[0]);
      var rest :- FilterAll(r, vs[1..], call);
      if keep.BoolV? then Some(if keep.flag then [vs[0]] + rest else rest) else None
  }

  function RepeatCall(r: NodeRef, n: nat, v: Value, call: Calls): Option<Value>
  {
    if n == 0 then Some(v) else
      var next :- call(r, v);
      RepeatCall(r, n - 1, next, call)
  }

  function FoldAll(r: NodeRef, acc: Value, vs: seq<Value>, call: Calls): Option<Value>
    decreases vs
  {
    if vs == [] then Some(acc) else
      var next :- call(r, TupleV([acc, vs[0]]));
      FoldAll(r, next, vs[1..], call)
  }

  function ScanAll(r: NodeRef, acc: Value, vs: seq<Value>, call: Calls): Option<seq<Value>>
    decreases vs
  {
    if vs == [] then Some([]) else
      var next :- call(r, TupleV([acc, vs[0]]));
      var rest :- ScanAll(r, next, vs[1..], call);
      Some([next] + rest)
  }

  /** Successes go through the node, faults are set aside, both in order. */
  function PartitionAll(r: NodeRef, vs: seq<Value>, call: Calls): Option<(seq<Value>, seq<Value>)>
  {
    if vs == [] then Some(([], [])) else
      match vs[0]
      case OkV(v) =>
        var first :- call(r, v);
        var rest :- PartitionAll(r, vs[1..], call);
        Some(([first] + rest.0, rest.1))
      case FaultV(_) =>
        var rest :- PartitionAll(r, vs[1..], call);
        Some((rest.0, [vs[0]] + rest.1))
      case _ => None
  }

  // ---- Bindings, chains and callables ----

  /** A name is bound once. */
  function BindName(x: string, v: Value, env: Env): Option<Env>
  {
    if x in env then None else Some(env[x := v])
  }

  function BindTarget(t: BindingTarget, v: Value, env: Env): Option<Env>
    decreases t, 0
  {
    match t
    case Drop => Some(env)
    case Bound(x) => BindName(x, v, env)
    case Both(items) => if v.TupleV? && |v.items| == |items| then BindTargets(items, v.items, env) else None
  }

  function BindTargets(ts: seq<BindingTarget>, vs: seq<Value>, env: Env): Option<Env>
    requires |ts| == |vs|
    decreases ts, 0
  {
    if ts == [] then Some(env) else
      var next :- BindTarget(ts[0], vs[0], env);
      BindTargets(ts[1..], vs[1..], next)
  }

  /** The stages of a chain; only the last one may bind. */
  function RunStages(stages: seq<Stage>, v: Value, env: Env, call: Calls): Option<Env>
    decreases stages, 0
  {
    if stages == [] then Some(env)
    else if |stages| == 1 && stages[0].Bind? then BindTarget(stages[0].target, v, env)
    else if |stages| == 1 && stages[0].FaultMap? then
      if !v.SeqV? then None else
        var parts :- PartitionAll(stages[0].node, v.items, call);
        var next :- BindName(stages[0].ok, SeqV(parts.0), env);
        BindName(stages[0].fault, SeqV(parts.1), next)
    else
      var next :- RunStage(stages[0], v, env, call);
      RunStages(stages[1..], next, env, call)
  }

  function RunChain(c: Chain, env: Env, call: Calls): Option<Env>
  {
    var v :- RunEndpoint(c.source, env, call);
    RunStages(c.stages, v, env, call)
  }

  function RunChains(cs: seq<Chain>, env: Env, call: Calls): Option<Env>
  {
    if cs == [] then Some(env) else
      var next :- RunChain(cs[0], env, call);
      RunChains(cs[1..], next, call)
  }

  /** One input takes the whole value; several take the items of a tuple. */
  function BindInputs(ports: seq<Port>, v: Value): Option<Env>
  {
    if ports == [] then Some(map[])
    else if |ports| == 1 then Some(map[ports[0].name := v])
    else if v.TupleV? && |v.items| == |ports| then
      BindTargets(seq(|ports|, i requires 0 <= i < |ports| => Bound(ports[i].name)), v.items, map[])
    else None
  }

  function Outputs(ports: seq<Port>, env: Env): Option<seq<Value>>
  {
    if ports == [] then Some([])
    else if ports[0].name !in env then None
    else
      var rest :- Outputs(ports[1..], env);
      Some([env[ports[0].name]] + rest)
  }

  function RunCallable(c: Callable, v: Value, call: Calls): Option<Value>
  {
    var start :- BindInputs(c.inputs, v);
    var env :- RunChains(c.chains, start, call);
    var vs :- Outputs(c.outputs, env);
    Some(if vs == [] then UnitV else if |vs| == 1 then vs[0] else TupleV(vs))
  }

  // ---- What is bound is what is read ----

  predicate NamesAll(t: BindingTarget)
  {
    match t
    case Drop => false
    case Bound(_) => true
    case Both(items) => forall i :: 0 <= i < |items| ==> NamesAll(items[i])
  }

  /** The value that has the shape of a target. */
  function AsValue(t: BindingTarget): Endpoint
    requires NamesAll(t)
  {
    match t
    case Bound(x) => Variable(x)
    case Both(items) => Tuple(AsValues(items))
  }

  function AsValues(ts: seq<BindingTarget>): seq<Endpoint>
    requires forall i :: 0 <= i < |ts| ==> NamesAll(ts[i])
  {
    if ts == [] then [] else [AsValue(ts[0])] + AsValues(ts[1..])
  }

  /** What was bound before stays bound. */
  ghost predicate Extends(env: Env, next: Env) { forall x :: x in env ==> x in next && next[x] == env[x] }

  lemma {:induction false} BindingExtends(t: BindingTarget, v: Value, env: Env)
    requires BindTarget(t, v, env).Some?
    ensures Extends(env, BindTarget(t, v, env).value)
    decreases t, 0
  {
    if t.Both? { BindingsExtend(t.items, v.items, env); }
  }

  lemma {:induction false} BindingsExtend(ts: seq<BindingTarget>, vs: seq<Value>, env: Env)
    requires |ts| == |vs| && BindTargets(ts, vs, env).Some?
    ensures Extends(env, BindTargets(ts, vs, env).value)
    decreases ts, 0
  {
    if ts != [] {
      BindingExtends(ts[0], vs[0], env);
      BindingsExtend(ts[1..], vs[1..], BindTarget(ts[0], vs[0], env).value);
    }
  }

  /** A value taken apart by a target is put together again by reading the names in the shape of the target. */
  lemma {:induction false} TargetReadsBack(t: BindingTarget, v: Value, env: Env, next: Env, call: Calls)
    requires NamesAll(t) && BindTarget(t, v, env).Some? && Extends(BindTarget(t, v, env).value, next)
    ensures RunEndpoint(AsValue(t), next, call) == Some(v)
    decreases t, 0
  {
    if t.Both? { TargetsReadBack(t.items, v.items, env, next, call); }
  }

  lemma {:induction false} TargetsReadBack(ts: seq<BindingTarget>, vs: seq<Value>, env: Env, next: Env, call: Calls)
    requires |ts| == |vs| && forall i :: 0 <= i < |ts| ==> NamesAll(ts[i])
    requires BindTargets(ts, vs, env).Some? && Extends(BindTargets(ts, vs, env).value, next)
    ensures RunItems(AsValues(ts), next, call) == Some(vs)
    decreases ts, 0
  {
    if ts != [] {
      var bound := BindTarget(ts[0], vs[0], env).value;
      BindingsExtend(ts[1..], vs[1..], bound);
      TargetReadsBack(ts[0], vs[0], env, next, call);
      TargetsReadBack(ts[1..], vs[1..], bound, next, call);
      var items := AsValues(ts);
      assert items[0] == AsValue(ts[0]) && items[1..] == AsValues(ts[1..]);
      assert vs == [vs[0]] + vs[1..];
    } else {
      assert vs == [];
    }
  }

  lemma {:induction false} InputsReadBack(ports: seq<Port>, vs: seq<Value>, env: Env, next: Env)
    requires |ports| == |vs|
    requires
      var ts := seq(|ports|, i requires 0 <= i < |ports| => Bound(ports[i].name));
      BindTargets(ts, vs, env).Some? && Extends(BindTargets(ts, vs, env).value, next)
    ensures Outputs(ports, next) == Some(vs)
    decreases |ports|
  {
    var ts := seq(|ports|, i requires 0 <= i < |ports| => Bound(ports[i].name));
    if ports != [] {
      var bound := BindTarget(ts[0], vs[0], env).value;
      var rest := seq(|ports[1..]|, i requires 0 <= i < |ports[1..]| => Bound(ports[1..][i].name));
      assert ts[1..] == rest;
      BindingsExtend(ts[1..], vs[1..], bound);
      InputsReadBack(ports[1..], vs[1..], bound, next);
      assert vs == [vs[0]] + vs[1..];
    } else {
      assert vs == [];
    }
  }

  /** A callable without chains whose outputs are its inputs hands its value on. */
  lemma InputsAreHandedOn(c: Callable, v: Value, call: Calls)
    requires c.chains == [] && c.inputs != [] && c.outputs == c.inputs && BindInputs(c.inputs, v).Some?
    ensures RunCallable(c, v, call) == Some(v)
  {
    var env := BindInputs(c.inputs, v).value;
    if |c.inputs| == 1 {
      assert Outputs(c.inputs[1..], env) == Some([]);
      assert [v] + [] == [v];
    } else {
      InputsReadBack(c.inputs, v.items, map[], env);
    }
  }
}
