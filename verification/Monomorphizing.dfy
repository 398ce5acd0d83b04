/** What static node parameters mean, and what src/monomorphize.rs turns them into. */
module Monomorphizing {
  import opened Ast
  import opened Dataflow
  import Tokens

  /** The actual nodes behind the parameters of a template. */
  type Bindings = map<QName, QName>

  datatype Key = Key(template: QName, args: seq<QName>)

  function Parameters(params: seq<NodeParam>, args: seq<QName>): Bindings
    requires |params| == |args|
  {
    if params == [] then map[]
    else Parameters(params[..|params| - 1], args[..|args| - 1])[[params[|params| - 1].name] := args[|args| - 1]]
  }

  // ---- Names of instances ----

  function DottedText(q: QName): string
  {
    if q == [] then "" else if |q| == 1 then q[0] else q[0] + "." + DottedText(q[1..])
  }

  function Sanitize(s: string): string
  {
    if s == "" then "" else [if Tokens.IsWordChar(s[0]) then s[0] else '_'] + Sanitize(s[1..])
  }

  function ArgsText(args: seq<QName>): string
  {
    if args == [] then "" else "_" + Sanitize(DottedText(args[0])) + ArgsText(args[1..])
  }

  function InstanceName(k: Key): string
  {
    "__flow_inst_" + Sanitize(DottedText(k.template)) + ArgsText(k.args)
  }

  // ---- Rewriting references ----

  function Actual(q: QName, b: Bindings): QName { if q in b then b[q] else q }

  function Actuals(qs: seq<QName>, b: Bindings): (r: seq<QName>)
    ensures |r| == |qs|
    ensures forall i :: 0 <= i < |qs| ==> r[i] == Actual(qs[i], b)
  {
    if qs == [] then [] else [Actual(qs[0], b)] + Actuals(qs[1..], b)
  }

  /** The instance a reference asks for, if it asks for one. */
  function Wanted(r: NodeRef, b: Bindings): Option<Key>
  {
    if r.base in b || r.args == [] then None else Some(Key(r.base, Actuals(r.args, b)))
  }

  function RewriteRef(r: NodeRef, b: Bindings): NodeRef
  {
    if r.base in b then NodeRef(b[r.base], [])
    else if r.args == [] then r
    else NodeRef([InstanceName(Key(r.base, Actuals(r.args, b)))], [])
  }

  function RewriteEndpoint(e: Endpoint, b: Bindings): Endpoint
    decreases e, 0
  {
    match e
    case Name(r) => Name(RewriteRef(r, b))
    case Tuple(items) => Tuple(RewriteItems(items, b))
    case Seq(items) => Seq(RewriteItems(items, b))
    case Struct(name, fields) => Struct(name, RewriteFields(fields, b))
    case Eval(source, stages) => Eval(RewriteEndpoint(source, b), RewriteStages(stages, b))
    case _ => e
  }

  function RewriteItems(items: seq<Endpoint>, b: Bindings): (r: seq<Endpoint>)
    ensures |r| == |items|
    decreases items, 0
  {
    if items == [] then [] else [RewriteEndpoint(items[0], b)] + RewriteItems(items[1..], b)
  }

  function RewriteFields(fields: seq<Field>, b: Bindings): (r: seq<Field>)
    ensures |r| == |fields|
    decreases fields, 0
  {
    if fields == [] then [] else
      [Field(fields[0].name, RewriteEndpoint(fields[0].value, b))] + RewriteFields(fields[1..], b)
  }

  function RewriteStages(stages: seq<Stage>, b: Bindings): (r: seq<Stage>)
    ensures |r| == |stages|
    decreases stages, 0
  {
    if stages == [] then [] else [RewriteStage(stages[0], b)] + RewriteStages(stages[1..], b)
  }

  /** Identities and repeat counts stay as they are. */
  function RewriteStage(s: Stage, b: Bindings): Stage
    decreases s, 0
  {
    match s
    case Value(e) => Value(RewriteEndpoint(e, b))
    case Bind(_) => s
    case FieldOf(_) => s
    case Map(r) => Map(RewriteRef(r, b))
    case FaultMap(r, ok, fault) => FaultMap(RewriteRef(r, b), ok, fault)
    case Filter(r) => Filter(RewriteRef(r, b))
    case Repeat(count, r) => Repeat(count, RewriteRef(r, b))
    case Reduce(r, identity) => Reduce(RewriteRef(r, b), identity)
    case Scan(r, identity) => Scan(RewriteRef(r, b), identity)
    case Match(arms) => Match(RewriteArms(arms, b))
  }

  function RewriteArms(arms: seq<MatchArm>, b: Bindings): (r: seq<MatchArm>)
    ensures |r| == |arms|
    decreases arms, 0
  {
    if arms == [] then [] else [RewriteArm(arms[0], b)] + RewriteArms(arms[1..], b)
  }

  function RewriteArm(arm: MatchArm, b: Bindings): MatchArm
    decreases arm, 0
  {
    MatchArm(RewriteGuard(arm.guard, b), RewriteTarget(arm.target, b))
  }

  function RewriteGuard(g: MatchGuard, b: Bindings): MatchGuard
    decreases g, 0
  {
    match g
    case Fallback => g
    case Call(r, args) => Call(RewriteRef(r, b), RewriteItems(args, b))
  }

  function RewriteTarget(t: MatchTarget, b: Bindings): MatchTarget
    decreases t, 0
  {
    match t
    case ToNode(r) => ToNode(RewriteRef(r, b))
    case ToValue(e) => ToValue(RewriteEndpoint(e, b))
  }

  function RewriteChain(c: Chain, b: Bindings): Chain
  {
    Chain(RewriteEndpoint(c.source, b), RewriteStages(c.stages, b))
  }

  function RewriteChains(cs: seq<Chain>, b: Bindings): (r: seq<Chain>)
    ensures |r| == |cs|
  {
    if cs == [] then [] else [RewriteChain(cs[0], b)] + RewriteChains(cs[1..], b)
  }

  function RewriteCallable(c: Callable, b: Bindings): (r: Callable)
    ensures r == c.(chains := r.chains) && r.chains == RewriteChains(c.chains, b)
  {
    c.(chains := RewriteChains(c.chains, b))
  }

  // ---- References, where they are rewritten (`skipped` false) and where they are not ----

  function EndpointRefs(e: Endpoint, skipped: bool): set<NodeRef>
    decreases e, 0
  {
    match e
    case Name(r) => Here(r, skipped)
    case Tuple(items) => ItemRefs(items, skipped)
    case Seq(items) => ItemRefs(items, skipped)
    case Struct(_, fields) => FieldRefs(fields, skipped)
    case Eval(source, stages) => EndpointRefs(source, skipped) + StageListRefs(stages, skipped)
    case _ => {}
  }

  function Here(r: NodeRef, skipped: bool): set<NodeRef> { if skipped then {} else {r} }

  function ItemRefs(items: seq<Endpoint>, skipped: bool): set<NodeRef>
    decreases items, 0
  {
    if items == [] then {} else EndpointRefs(items[0], skipped) + ItemRefs(items[1..], skipped)
  }

  function FieldRefs(fields: seq<Field>, skipped: bool): set<NodeRef>
    decreases fields, 0
  {
    if fields == [] then {} else EndpointRefs(fields[0].value, skipped) + FieldRefs(fields[1..], skipped)
  }

  function StageListRefs(stages: seq<Stage>, skipped: bool): set<NodeRef>
    decreases stages, 0
  {
    if stages == [] then {} else StageRefs(stages[0], skipped) + StageListRefs(stages[1..], skipped)
  }

  /** An operand that is left alone: all its references count as skipped. */
  function OperandRefs(e: Endpoint, skipped: bool): set<NodeRef>
    decreases e, 1
  {
    if skipped then EndpointRefs(e, false) + EndpointRefs(e, true) else {}
  }

  function StageRefs(s: Stage, skipped: bool): set<NodeRef>
    decreases s, 0
  {
    match s
    case Value(e) => EndpointRefs(e, skipped)
    case Bind(_) => {}
    case FieldOf(_) => {}
    case Map(r) => Here(r, skipped)
    case FaultMap(r, _, _) => Here(r, skipped)
    case Filter(r) => Here(r, skipped)
    case Repeat(count, r) => Here(r, skipped) + OperandRefs(count, skipped)
    case Reduce(r, identity) => Here(r, skipped) + OperandRefs(identity, skipped)
    case Scan(r, identity) => Here(r, skipped) + OperandRefs(identity, skipped)
    case Match(arms) => ArmListRefs(arms, skipped)
  }

  function ArmListRefs(arms: seq<MatchArm>, skipped: bool): set<NodeRef>
    decreases arms, 0
  {
    if arms == [] then {} else ArmRefs(arms[0], skipped) + ArmListRefs(arms[1..], skipped)
  }

  function ArmRefs(arm: MatchArm, skipped: bool): set<NodeRef>
    decreases arm, 0
  {
    GuardRefs(arm.guard, skipped) + TargetRefs(arm.target, skipped)
  }

  function GuardRefs(g: MatchGuard, skipped: bool): set<NodeRef>
    decreases g, 0
  {
    match g
    case Fallback => {}
    case Call(r, args) => Here(r, skipped) + ItemRefs(args, skipped)
  }

  function TargetRefs(t: MatchTarget, skipped: bool): set<NodeRef>
    decreases t, 0
  {
    match t
    case ToNode(r) => Here(r, skipped)
    case ToValue(e) => EndpointRefs(e, skipped)
  }

  function ChainRefs(c: Chain, skipped: bool): set<NodeRef>
  {
    EndpointRefs(c.source, skipped) + StageListRefs(c.stages, skipped)
  }

  function ChainListRefs(cs: seq<Chain>, skipped: bool): set<NodeRef>
  {
    if cs == [] then {} else ChainRefs(cs[0], skipped) + ChainListRefs(cs[1..], skipped)
  }

  // ---- Running with static parameters ----

  /** The nodes of a module: those with static parameters and those without. */
  datatype Library = Library(templates: map<QName, Callable>, nodes: map<QName, Callable>)

  /** A later declaration of a name hides an earlier one. */
  function Declared(ds: seq<Decl>): Library
  {
    if ds == [] then Library(map[], map[]) else
      var lib := Declared(ds[..|ds| - 1]);
      var d := ds[|ds| - 1];
      if !d.Node? then lib
      else if d.callable.nodeParams == [] then lib.(nodes := lib.nodes[[d.callable.name] := d.callable])
      else lib.(templates := lib.templates[[d.callable.name] := d.callable])
  }

  predicate WellKeyed(k: Key, lib: Library): (r: bool)
    ensures r ==> k.template in lib.templates
  {
    k.template in lib.templates && |lib.templates[k.template].nodeParams| == |k.args|
  }

  function KeyBindings(k: Key, lib: Library): Bindings
    requires WellKeyed(k, lib)
  {
    Parameters(lib.templates[k.template].nodeParams, k.args)
  }

  /**
   * A call with fewer than `fuel` calls nested in it. A parameter stands for its node, a template runs with
   * its parameters bound, and `prim` answers for every name that the module does not declare.
   */
  function Run(lib: Library, prim: (QName, Value) -> Option<Value>, b: Bindings, r: NodeRef, v: Value, fuel: nat)
    : Option<Value>
    decreases fuel, 0
  {
    if fuel == 0 || (r.base in b && r.args != []) then None
    else if r.base in b || r.args == [] then
      var name := Actual(r.base, b);
      if name !in lib.nodes then prim(name, v)
      else RunCallable(lib.nodes[name], v, Calling(lib, prim, map[], fuel - 1))
    else
      var k := Key(r.base, Actuals(r.args, b));
      if !WellKeyed(k, lib) then None
      else RunCallable(lib.templates[k.template], v, Calling(lib, prim, KeyBindings(k, lib), fuel - 1))
  }

  function Calling(lib: Library, prim: (QName, Value) -> Option<Value>, b: Bindings, fuel: nat): Calls
    decreases fuel, 1
  {
    (r, v) => Run(lib, prim, b, r, v, fuel)
  }

  // ---- What expansion returns ----

  /** The node that stands for an instance. */
  function Instance(k: Key, lib: Library): (r: Callable)
    requires WellKeyed(k, lib)
    ensures r.name == InstanceName(k) && r.nodeParams == [] && !r.isExtern
    ensures
      var c := lib.templates[k.template];
      r.inputs == c.inputs && r.outputs == c.outputs && r.chains == RewriteChains(c.chains, KeyBindings(k, lib))
  {
    var c := lib.templates[k.template];
    RewriteCallable(c.(name := InstanceName(k), isExtern := false, nodeParams := []), KeyBindings(k, lib))
  }

  function Instances(ks: seq<Key>, lib: Library): (ds: seq<Decl>)
    requires forall k :: k in ks ==> WellKeyed(k, lib)
    ensures |ds| == |ks|
    ensures forall i :: 0 <= i < |ks| ==> ds[i] == Node(Instance(ks[i], lib))
  {
    if ks == [] then [] else Instances(ks[..|ks| - 1], lib) + [Node(Instance(ks[|ks| - 1], lib))]
  }

  predicate IsTemplate(d: Decl) { d.Node? && d.callable.nodeParams != [] }

  function KeptDecl(d: Decl): Decl
  {
    match d
    case Node(c) => Node(RewriteCallable(c, map[]))
    case Program(c) => Program(RewriteCallable(c, map[]))
    case _ => d
  }

  /** The declarations that stay, templates left out. */
  function Kept(ds: seq<Decl>): seq<Decl>
  {
    if ds == [] then [] else
      var d := ds[|ds| - 1];
      Kept(ds[..|ds| - 1]) + if IsTemplate(d) then [] else [KeptDecl(d)]
  }

  // ---- Which instances a module needs ----

  predicate IsRoot(d: Decl) { d.Program? || (d.Node? && d.callable.nodeParams == []) }

  /** A callable of the module together with the parameters it is rewritten under. */
  ghost predicate Body(ds: seq<Decl>, c: Callable, b: Bindings, owner: Option<Key>)
  {
    match owner
    case None => b == map[] && exists d :: d in ds && IsRoot(d) && d.callable == c
    case Some(k) =>
      && WellKeyed(k, Declared(ds))
      && c == Declared(ds).templates[k.template]
      && b == KeyBindings(k, Declared(ds))
      && Needed(ds, k)
  }

  /** A chain of `n` instances leads from a callable without parameters to the key. */
  ghost predicate NeededAfter(ds: seq<Decl>, k: Key, n: nat)
    decreases n
  {
    var lib := Declared(ds);
    if n == 0 then
      exists d, r :: d in ds && IsRoot(d) && r in ChainListRefs(d.callable.chains, false)
                     && Wanted(r, map[]) == Some(k)
    else
      exists p, r ::
        && NeededAfter(ds, p, n - 1)
        && WellKeyed(p, lib)
        && r in ChainListRefs(lib.templates[p.template].chains, false)
        && Wanted(r, KeyBindings(p, lib)) == Some(k)
  }

  ghost predicate Needed(ds: seq<Decl>, k: Key) { exists n: nat :: NeededAfter(ds, k, n) }

  /** A parameter with arguments, or an instance of something that takes no such arguments. */
  predicate Misused(r: NodeRef, b: Bindings, lib: Library)
  {
    if r.base in b then r.args != []
    else r.args != [] && !WellKeyed(Key(r.base, Actuals(r.args, b)), lib)
  }

  /** The modules that are turned down. */
  ghost predicate Refused(ds: seq<Decl>)
  {
    || (exists d :: d in ds && d.Program? && d.callable.nodeParams != [])
    || (exists c, b, owner, r ::
          Body(ds, c, b, owner) && r in ChainListRefs(c.chains, false) && Misused(r, b, Declared(ds)))
  }

  predicate Distinct<T(==)>(xs: seq<T>) { forall i, j :: 0 <= i < j < |xs| ==> xs[i] != xs[j] }

  /** The expansion of a module, the instances in the order `ks`. */
  ghost predicate IsExpansion(ds: seq<Decl>, ks: seq<Key>, out: seq<Decl>)
  {
    && !Refused(ds)
    && Distinct(ks)
    && (forall k :: k in ks <==> Needed(ds, k))
    && (forall k :: k in ks ==> WellKeyed(k, Declared(ds)))
    && out == Kept(ds) + Instances(ks, Declared(ds))
  }
}
