/** Expansion keeps the meaning of every callable. */
module Expansion {
  import opened Ast
  import opened Dataflow
  import opened Monomorphizing
  import opened InstanceNames

  // ---- Bodies: calling rewritten references with `c2` is calling the references with `c1` ----

  ghost predicate Agree(rs: set<NodeRef>, b: Bindings, c1: Calls, c2: Calls)
  {
    forall r, v :: r in rs ==> c1(r, v) == c2(RewriteRef(r, b), v)
  }

  /** References that are left alone carry no arguments and mean the same on both sides. */
  ghost predicate Quiet(rs: set<NodeRef>, c1: Calls, c2: Calls)
  {
    forall r :: r in rs ==> r.args == [] && forall v :: c1(r, v) == c2(r, v)
  }

  lemma {:induction false} CollectionsRun(r: NodeRef, r': NodeRef, vs: seq<Value>, c1: Calls, c2: Calls)
    requires forall v :: c1(r, v) == c2(r', v)
    ensures MapAll(r, vs, c1) == MapAll(r', vs, c2)
    ensures FilterAll(r, vs, c1) == FilterAll(r', vs, c2)
    ensures PartitionAll(r, vs, c1) == PartitionAll(r', vs, c2)
    decreases vs
  {
    if vs != [] { CollectionsRun(r, r', vs[1..], c1, c2); }
  }

  lemma {:induction false} FoldsRun(r: NodeRef, r': NodeRef, acc: Value, vs: seq<Value>, c1: Calls, c2: Calls)
    requires forall v :: c1(r, v) == c2(r', v)
    ensures FoldAll(r, acc, vs, c1) == FoldAll(r', acc, vs, c2)
    ensures ScanAll(r, acc, vs, c1) == ScanAll(r', acc, vs, c2)
    decreases vs
  {
    if vs != [] {
      var next := c1(r, TupleV([acc, vs[0]]));
      if next.Some? { FoldsRun(r, r', next.value, vs[1..], c1, c2); }
    }
  }

  lemma {:induction false} RepeatRuns(r: NodeRef, r': NodeRef, n: nat, v: Value, c1: Calls, c2: Calls)
    requires forall v :: c1(r, v) == c2(r', v)
    ensures RepeatCall(r, n, v, c1) == RepeatCall(r', n, v, c2)
    decreases n
  {
    if n > 0 && c1(r, v).Some? { RepeatRuns(r, r', n - 1, c1(r, v).value, c1, c2); }
  }

  lemma {:induction false} EndpointRuns(e: Endpoint, b: Bindings, env: Env, c1: Calls, c2: Calls)
    requires Agree(EndpointRefs(e, false), b, c1, c2) && Quiet(EndpointRefs(e, true), c1, c2)
    ensures RunEndpoint(e, env, c1) == RunEndpoint(RewriteEndpoint(e, b), env, c2)
    decreases e, 0
  {
    match e
    case Tuple(items) => ItemsRun(items, b, env, c1, c2);
    case Seq(items) => ItemsRun(items, b, env, c1, c2);
    case Struct(_, fields) => FieldsRun(fields, b, env, c1, c2);
    case Eval(source, stages) =>
      EndpointRuns(source, b, env, c1, c2);
      var v := RunEndpoint(source, env, c1);
      if v.Some? { InlineRuns(stages, b, v.value, env, c1, c2); }
    case _ =>
  }

  lemma {:induction false} ItemsRun(items: seq<Endpoint>, b: Bindings, env: Env, c1: Calls, c2: Calls)
    requires Agree(ItemRefs(items, false), b, c1, c2) && Quiet(ItemRefs(items, true), c1, c2)
    ensures RunItems(items, env, c1) == RunItems(RewriteItems(items, b), env, c2)
    decreases items, 0
  {
    if items != [] {
      EndpointRuns(items[0], b, env, c1, c2);
      ItemsRun(items[1..], b, env, c1, c2);
    }
  }

  lemma {:induction false} FieldsRun(fields: seq<Field>, b: Bindings, env: Env, c1: Calls, c2: Calls)
    requires Agree(FieldRefs(fields, false), b, c1, c2) && Quiet(FieldRefs(fields, true), c1, c2)
    ensures RunFields(fields, env, c1) == RunFields(RewriteFields(fields, b), env, c2)
    decreases fields, 0
  {
    if fields != [] {
      EndpointRuns(fields[0].value, b, env, c1, c2);
      FieldsRun(fields[1..], b, env, c1, c2);
    }
  }

  lemma {:induction false} InlineRuns(
    stages: seq<Stage>, b: Bindings, v: Value, env: Env, c1: Calls, c2: Calls)
    requires Agree(StageListRefs(stages, false), b, c1, c2) && Quiet(StageListRefs(stages, true), c1, c2)
    ensures RunInline(stages, v, env, c1) == RunInline(RewriteStages(stages, b), v, env, c2)
    decreases stages, 0
  {
    if stages != [] {
      StageRuns(stages[0], b, v, env, c1, c2);
      var next := RunStage(stages[0], v, env, c1);
      if next.Some? { InlineRuns(stages[1..], b, next.value, env, c1, c2); }
    }
  }

  /** Nothing to rewrite in a tree without static arguments. */
  lemma {:induction false} OperandRuns(e: Endpoint, env: Env, c1: Calls, c2: Calls)
    requires Quiet(OperandRefs(e, true), c1, c2)
    ensures RunEndpoint(e, env, c1) == RunEndpoint(e, env, c2)
    decreases e, 1
  {
    EndpointRuns(e, map[], env, c1, c2);
    EndpointStays(e);
  }

  lemma AgreeAt(r: NodeRef, rs: set<NodeRef>, b: Bindings, c1: Calls, c2: Calls)
    requires r in rs && Agree(rs, b, c1, c2)
    ensures forall v :: c1(r, v) == c2(RewriteRef(r, b), v)
  {}

  lemma {:induction false} StageRuns(s: Stage, b: Bindings, v: Value, env: Env, c1: Calls, c2: Calls)
    requires Agree(StageRefs(s, false), b, c1, c2) && Quiet(StageRefs(s, true), c1, c2)
    ensures RunStage(s, v, env, c1) == RunStage(RewriteStage(s, b), v, env, c2)
    decreases s, 1
  {
    hide Agree, RunEndpoint, RunArms, RewriteArms, ArmListRefs, MapAll, FilterAll, FoldAll, ScanAll, RepeatCall;
    if s.Value? {
      if s.endpoint.Name? { AgreeAt(s.endpoint.node, StageRefs(s, false), b, c1, c2); }
    } else if s.Match? {
      ArmsRun(s.arms, b, v, env, c1, c2);
    } else if s.Map? || s.Filter? {
      AgreeAt(s.node, StageRefs(s, false), b, c1, c2);
      if v.SeqV? { CollectionsRun(s.node, RewriteRef(s.node, b), v.items, c1, c2); }
    } else if s.Repeat? || s.Reduce? || s.Scan? {
      AgreeAt(s.node, StageRefs(s, false), b, c1, c2);
      OperandStageRuns(s, b, v, env, c1, c2);
    }
  }

  /** The stages with an operand that is not rewritten. */
  lemma {:induction false} OperandStageRuns(
    s: Stage, b: Bindings, v: Value, env: Env, c1: Calls, c2: Calls)
    requires s.Repeat? || s.Reduce? || s.Scan?
    requires Quiet(StageRefs(s, true), c1, c2)
    requires forall u :: c1(s.node, u) == c2(RewriteRef(s.node, b), u)
    ensures RunStage(s, v, env, c1) == RunStage(RewriteStage(s, b), v, env, c2)
    decreases s, 0
  {
    hide RunEndpoint, FoldAll, ScanAll, RepeatCall, RewriteRef;
    var operand := if s.Repeat? then s.count else s.identity;
    OperandRuns(operand, env, c1, c2);
    hide Quiet;
    var start := RunEndpoint(operand, env, c1);
    if start.Some? {
      if !s.Repeat? && v.SeqV? {
        FoldsRun(s.node, RewriteRef(s.node, b), start.value, v.items, c1, c2);
      } else if s.Repeat? && start.value.IntV? {
        RepeatRuns(s.node, RewriteRef(s.node, b), if start.value.n < 0 then 0 else start.value.n, v, c1, c2);
      }
    }
  }

  lemma {:induction false} ArmsRun(arms: seq<MatchArm>, b: Bindings, v: Value, env: Env, c1: Calls, c2: Calls)
    requires Agree(ArmListRefs(arms, false), b, c1, c2) && Quiet(ArmListRefs(arms, true), c1, c2)
    ensures RunArms(arms, v, env, c1) == RunArms(RewriteArms(arms, b), v, env, c2)
    decreases arms, 0
  {
    if arms != [] {
      ArmRuns(arms[0], b, v, env, c1, c2);
      ArmsRun(arms[1..], b, v, env, c1, c2);
    }
  }

  lemma {:induction false} ArmRuns(arm: MatchArm, b: Bindings, v: Value, env: Env, c1: Calls, c2: Calls)
    requires Agree(ArmRefs(arm, false), b, c1, c2) && Quiet(ArmRefs(arm, true), c1, c2)
    ensures RunArm(arm, v, env, c1) == RunArm(RewriteArm(arm, b), v, env, c2)
    decreases arm, 0
  {
    GuardRuns(arm.guard, b, v, env, c1, c2);
    TargetRuns(arm.target, b, v, env, c1, c2);
  }

  lemma {:induction false} GuardRuns(g: MatchGuard, b: Bindings, v: Value, env: Env, c1: Calls, c2: Calls)
    requires Agree(GuardRefs(g, false), b, c1, c2) && Quiet(GuardRefs(g, true), c1, c2)
    ensures RunGuard(g, v, env, c1) == RunGuard(RewriteGuard(g, b), v, env, c2)
    decreases g, 0
  {
    if g.Call? {
      assert g.node in Here(g.node, false);
      ItemsRun(g.args, b, env, c1, c2);
    }
  }

  lemma {:induction false} TargetRuns(t: MatchTarget, b: Bindings, v: Value, env: Env, c1: Calls, c2: Calls)
    requires Agree(TargetRefs(t, false), b, c1, c2) && Quiet(TargetRefs(t, true), c1, c2)
    ensures RunTarget(t, v, env, c1) == RunTarget(RewriteTarget(t, b), v, env, c2)
    decreases t, 0
  {
    if t.ToValue? { EndpointRuns(t.endpoint, b, env, c1, c2); }
  }

  lemma {:induction false} StagesRun(stages: seq<Stage>, b: Bindings, v: Value, env: Env, c1: Calls, c2: Calls)
    requires Agree(StageListRefs(stages, false), b, c1, c2) && Quiet(StageListRefs(stages, true), c1, c2)
    ensures RunStages(stages, v, env, c1) == RunStages(RewriteStages(stages, b), v, env, c2)
    decreases stages, 0
  {
    if stages != [] {
      hide RunStage, StageRefs, BindTarget, BindName, PartitionAll;
      var s := stages[0];
      var tail := RewriteStages(stages[1..], b);
      Parts(StageRefs(s, false), StageListRefs(stages[1..], false), b, c1, c2);
      assert Quiet(StageRefs(s, true), c1, c2) && Quiet(StageListRefs(stages[1..], true), c1, c2);
      assert RewriteStages(stages, b)[0] == RewriteStage(s, b) && RewriteStages(stages, b)[1..] == tail;
      hide Agree, Quiet, RewriteStages;
      if |stages| == 1 && s.FaultMap? {
        LastStageRuns(s, b, v, c1, c2);
      } else if !(|stages| == 1 && s.Bind?) {
        StageRuns(s, b, v, env, c1, c2);
        var next := RunStage(s, v, env, c1);
        if next.Some? { StagesRun(stages[1..], b, next.value, env, c1, c2); }
      }
    }
  }

  lemma Parts(rs: set<NodeRef>, rs': set<NodeRef>, b: Bindings, c1: Calls, c2: Calls)
    requires Agree(rs + rs', b, c1, c2)
    ensures Agree(rs, b, c1, c2) && Agree(rs', b, c1, c2)
  {}

  lemma LastStageRuns(s: Stage, b: Bindings, v: Value, c1: Calls, c2: Calls)
    requires s.FaultMap? && Agree(StageRefs(s, false), b, c1, c2)
    ensures v.SeqV? ==> PartitionAll(s.node, v.items, c1) == PartitionAll(RewriteRef(s.node, b), v.items, c2)
  {
    AgreeAt(s.node, StageRefs(s, false), b, c1, c2);
    if v.SeqV? { CollectionsRun(s.node, RewriteRef(s.node, b), v.items, c1, c2); }
  }

  lemma {:induction false} ChainsRun(cs: seq<Chain>, b: Bindings, env: Env, c1: Calls, c2: Calls)
    requires Agree(ChainListRefs(cs, false), b, c1, c2) && Quiet(ChainListRefs(cs, true), c1, c2)
    ensures RunChains(cs, env, c1) == RunChains(RewriteChains(cs, b), env, c2)
  {
    hide RunEndpoint, RunStages;
    if cs != [] {
      var c := cs[0];
      EndpointRuns(c.source, b, env, c1, c2);
      var v := RunEndpoint(c.source, env, c1);
      if v.Some? { StagesRun(c.stages, b, v.value, env, c1, c2); }
      var next := RunChain(c, env, c1);
      if next.Some? { ChainsRun(cs[1..], b, next.value, c1, c2); }
    }
  }

  /** A callable and its rewriting, run with calls that agree, return the same value. */
  lemma CallableRuns(c: Callable, c': Callable, b: Bindings, v: Value, c1: Calls, c2: Calls)
    requires Agree(ChainListRefs(c.chains, false), b, c1, c2) && Quiet(ChainListRefs(c.chains, true), c1, c2)
    requires c'.inputs == c.inputs && c'.outputs == c.outputs && c'.chains == RewriteChains(c.chains, b)
    ensures RunCallable(c, v, c1) == RunCallable(c', v, c2)
  {
    var start := BindInputs(c.inputs, v);
    if start.Some? { ChainsRun(c.chains, b, start.value, c1, c2); }
  }

  // ---- Trees that rewriting leaves alone ----

  predicate Bare(rs: set<NodeRef>) { forall r :: r in rs ==> r.args == [] }

  lemma {:induction false} EndpointStays(e: Endpoint)
    requires Bare(EndpointRefs(e, false))
    ensures RewriteEndpoint(e, map[]) == e
    decreases e, 0
  {
    match e
    case Name(r) => assert r in Here(r, false);
    case Tuple(items) => ItemsStay(items);
    case Seq(items) => ItemsStay(items);
    case Struct(_, fields) => FieldsStay(fields);
    case Eval(source, stages) =>
      EndpointStays(source);
      StagesStay(stages);
    case _ =>
  }

  lemma {:induction false} ItemsStay(items: seq<Endpoint>)
    requires Bare(ItemRefs(items, false))
    ensures RewriteItems(items, map[]) == items
    decreases items, 0
  {
    if items != [] {
      EndpointStays(items[0]);
      ItemsStay(items[1..]);
    }
  }

  lemma {:induction false} FieldsStay(fields: seq<Field>)
    requires Bare(FieldRefs(fields, false))
    ensures RewriteFields(fields, map[]) == fields
    decreases fields, 0
  {
    if fields != [] {
      EndpointStays(fields[0].value);
      FieldsStay(fields[1..]);
    }
  }

  lemma {:induction false} StagesStay(stages: seq<Stage>)
    requires Bare(StageListRefs(stages, false))
    ensures RewriteStages(stages, map[]) == stages
    decreases stages, 0
  {
    if stages != [] {
      StageStays(stages[0]);
      StagesStay(stages[1..]);
    }
  }

  lemma {:induction false} StageStays(s: Stage)
    requires Bare(StageRefs(s, false))
    ensures RewriteStage(s, map[]) == s
    decreases s, 0
  {
    match s
    case Value(e) => EndpointStays(e);
    case Match(arms) => ArmsStay(arms);
    case Bind(_) =>
    case FieldOf(_) =>
    case Map(r) => assert r in Here(r, false);
    case FaultMap(r, _, _) => assert r in Here(r, false);
    case Filter(r) => assert r in Here(r, false);
    case Repeat(_, r) => assert r in Here(r, false);
    case Reduce(r, _) => assert r in Here(r, false);
    case Scan(r, _) => assert r in Here(r, false);
  }

  lemma {:induction false} ArmsStay(arms: seq<MatchArm>)
    requires Bare(ArmListRefs(arms, false))
    ensures RewriteArms(arms, map[]) == arms
    decreases arms, 0
  {
    if arms != [] {
      ArmStays(arms[0]);
      ArmsStay(arms[1..]);
    }
  }

  lemma {:induction false} ArmStays(arm: MatchArm)
    requires Bare(ArmRefs(arm, false))
    ensures RewriteArm(arm, map[]) == arm
    decreases arm, 0
  {
    GuardStays(arm.guard);
    TargetStays(arm.target);
  }

  lemma {:induction false} GuardStays(g: MatchGuard)
    requires Bare(GuardRefs(g, false))
    ensures RewriteGuard(g, map[]) == g
    decreases g, 0
  {
    if g.Call? {
      assert g.node in Here(g.node, false);
      ItemsStay(g.args);
    }
  }

  lemma {:induction false} TargetStays(t: MatchTarget)
    requires Bare(TargetRefs(t, false))
    ensures RewriteTarget(t, map[]) == t
    decreases t, 0
  {
    match t
    case ToNode(r) => assert r in Here(r, false);
    case ToValue(e) => EndpointStays(e);
  }

  // ---- What the expanded module declares ----

  predicate IsCallable(d: Decl) { d.Node? || d.Program? }

  /** Every callable that is looked up comes from a declaration. */
  lemma {:induction false} DeclaredFrom(ds: seq<Decl>)
    ensures forall n :: n in Declared(ds).nodes ==>
              exists d :: d in ds && d.Node? && d.callable == Declared(ds).nodes[n] && d.callable.nodeParams == []
    ensures forall n :: n in Declared(ds).templates ==>
              exists d :: d in ds && d.Node? && d.callable == Declared(ds).templates[n]
                          && d.callable.nodeParams != []
  {
    if ds != [] { DeclaredFrom(ds[..|ds| - 1]); }
  }

  lemma {:induction false} KeptDeclares(ds: seq<Decl>)
    ensures Declared(Kept(ds)).nodes.Keys == Declared(ds).nodes.Keys
    ensures forall n :: n in Declared(ds).nodes ==>
              Declared(Kept(ds)).nodes[n] == RewriteCallable(Declared(ds).nodes[n], map[])
  {
    if ds != [] {
      var d := ds[|ds| - 1];
      var front := ds[..|ds| - 1];
      KeptDeclares(front);
      if IsTemplate(d) {
        assert Kept(ds) == Kept(front);
      } else {
        assert (Kept(front) + [KeptDecl(d)])[..|Kept(front)|] == Kept(front);
      }
    }
  }

  predicate Fresh(q: QName, ks: seq<Key>) { forall k :: k in ks ==> q != [InstanceName(k)] }

  lemma {:induction false} InstancesDeclare(ds: seq<Decl>, ks: seq<Key>, lib: Library)
    requires forall k :: k in ks ==> WellKeyed(k, lib)
    requires OneName(ks)
    ensures forall n :: Fresh(n, ks) ==>
              var all := Declared(ds + Instances(ks, lib)).nodes;
              (n in all <==> n in Declared(ds).nodes) && (n in all ==> all[n] == Declared(ds).nodes[n])
    ensures forall k :: k in ks ==>
              var all := Declared(ds + Instances(ks, lib)).nodes;
              [InstanceName(k)] in all && all[[InstanceName(k)]] == Instance(k, lib)
  {
    hide InstanceName, Instance, Declared, WellKeyed;
    if ks == [] {
      assert ds + Instances(ks, lib) == ds;
    } else {
      var front := ks[..|ks| - 1];
      var last := ks[|ks| - 1];
      InstancesDeclare(ds, front, lib);
      InstanceAdded(ds, front, last, lib);
      assert ks == front + [last];
    }
  }

  lemma InstanceAdded(ds: seq<Decl>, front: seq<Key>, last: Key, lib: Library)
    requires forall k :: k in front + [last] ==> WellKeyed(k, lib)
    ensures Declared(ds + Instances(front + [last], lib)).nodes
         == Declared(ds + Instances(front, lib)).nodes[[InstanceName(last)] := Instance(last, lib)]
  {
    hide InstanceName, Declared, WellKeyed;
    var d := Node(Instance(last, lib));
    assert (front + [last])[..|front|] == front;
    assert ds + Instances(front + [last], lib) == (ds + Instances(front, lib)) + [d];
    Added(ds + Instances(front, lib), d);
  }

  lemma Added(ds: seq<Decl>, d: Decl)
    requires d.Node? && d.callable.nodeParams == []
    ensures Declared(ds + [d]).nodes == Declared(ds).nodes[[d.callable.name] := d.callable]
  {
    assert (ds + [d])[..|ds|] == ds;
  }

  // ---- Meaning ----

  /** No reference or declaration of the module uses the name of an instance. */
  ghost predicate NamesAreFree(ds: seq<Decl>, ks: seq<Key>)
  {
    && (forall d :: d in ds && IsCallable(d) ==> Fresh([d.callable.name], ks))
    && (forall d, r, skipped ::
          d in ds && IsCallable(d) && r in ChainListRefs(d.callable.chains, skipped) ==>
          Fresh(r.base, ks) && forall a :: a in r.args ==> Fresh(a, ks))
  }

  /** Identities and repeat counts call neither instances nor static parameters. */
  ghost predicate OperandsArePlain(ds: seq<Decl>)
  {
    forall d, r :: d in ds && IsCallable(d) && r in ChainListRefs(d.callable.chains, true) ==>
      r.args == [] && forall p :: p in d.callable.nodeParams ==> r.base != [p.name]
  }

  lemma {:induction false} BoundNames(params: seq<NodeParam>, args: seq<QName>)
    requires |params| == |args|
    ensures forall q :: q in Parameters(params, args) ==>
              Parameters(params, args)[q] in args && exists p :: p in params && q == [p.name]
  {
    if params != [] { BoundNames(params[..|params| - 1], args[..|args| - 1]); }
  }

  lemma {:induction false} NeededArgsAreFresh(ds: seq<Decl>, ks: seq<Key>, k: Key, n: nat)
    requires NamesAreFree(ds, ks) && NeededAfter(ds, k, n)
    ensures forall a :: a in k.args ==> Fresh(a, ks)
    decreases n
  {
    hide Fresh, InstanceName, Declared, ChainListRefs;
    var lib := Declared(ds);
    if n == 0 {
      var d, r :| d in ds && IsRoot(d) && r in ChainListRefs(d.callable.chains, false)
        && Wanted(r, map[]) == Some(k);
      ActualsAreFresh(r.args, map[], ks);
    } else {
      DeclaredFrom(ds);
      var p, r :| NeededAfter(ds, p, n - 1) && WellKeyed(p, lib)
        && r in ChainListRefs(lib.templates[p.template].chains, false)
        && Wanted(r, KeyBindings(p, lib)) == Some(k);
      NeededArgsAreFresh(ds, ks, p, n - 1);
      BoundNames(lib.templates[p.template].nodeParams, p.args);
      ActualsAreFresh(r.args, KeyBindings(p, lib), ks);
    }
  }

  lemma ActualsAreFresh(qs: seq<QName>, b: Bindings, ks: seq<Key>)
    requires forall a :: a in qs ==> Fresh(a, ks)
    requires forall q :: q in b ==> Fresh(b[q], ks)
    ensures forall a :: a in Actuals(qs, b) ==> Fresh(a, ks)
  {
    hide Fresh, Actuals;
  }

  /**
   * What may be assumed of the module: no two instances have the same words, nothing uses their names, and
   * identities and counts are bare.
   */
  ghost predicate Nameable(ds: seq<Decl>, ks: seq<Key>)
  {
    WordsDiffer(ks) && NamesAreFree(ds, ks) && OperandsArePlain(ds)
  }

  /** Looking up a name of the module finds the rewritten node. */
  lemma PlainLookup(ds: seq<Decl>, ks: seq<Key>, out: seq<Decl>, n: QName)
    requires IsExpansion(ds, ks, out) && Nameable(ds, ks) && Fresh(n, ks)
    ensures n in Declared(out).nodes <==> n in Declared(ds).nodes
    ensures n in Declared(ds).nodes ==> Declared(out).nodes[n] == RewriteCallable(Declared(ds).nodes[n], map[])
  {
    KeptDeclares(ds);
    NamesDifferIff(ks);
    InstancesDeclare(Kept(ds), ks, Declared(ds));
  }

  lemma InstanceLookup(ds: seq<Decl>, ks: seq<Key>, out: seq<Decl>, k: Key)
    requires IsExpansion(ds, ks, out) && Nameable(ds, ks) && k in ks
    ensures [InstanceName(k)] in Declared(out).nodes
    ensures WellKeyed(k, Declared(ds)) && Declared(out).nodes[[InstanceName(k)]] == Instance(k, Declared(ds))
  {
    NamesDifferIff(ks);
    InstancesDeclare(Kept(ds), ks, Declared(ds));
  }

  /** A reference that a callable of the module makes. */
  ghost predicate Good(ds: seq<Decl>, ks: seq<Key>, b: Bindings, r: NodeRef)
  {
    && !Misused(r, b, Declared(ds))
    && (Wanted(r, b).Some? ==> Wanted(r, b).value in ks)
    && Fresh(Actual(r.base, b), ks)
  }

  /** References of a callable are good, and those left alone are plain names that no parameter hides. */
  lemma BodyIsGood(ds: seq<Decl>, ks: seq<Key>, out: seq<Decl>, c: Callable, b: Bindings, owner: Option<Key>)
    requires IsExpansion(ds, ks, out) && Nameable(ds, ks) && Body(ds, c, b, owner)
    ensures forall r :: r in ChainListRefs(c.chains, false) ==> Good(ds, ks, b, r)
    ensures forall r :: r in ChainListRefs(c.chains, true) ==>
              r.args == [] && r.base !in b && Good(ds, ks, b, r)
  {
    hide Fresh, InstanceName, ChainListRefs;
    DeclaredFrom(ds);
    var d :| d in ds && IsCallable(d) && d.callable == c;
    if owner.Some? {
      var n: nat :| NeededAfter(ds, owner.value, n);
      NeededArgsAreFresh(ds, ks, owner.value, n);
      BoundNames(c.nodeParams, owner.value.args);
    }
    forall r | r in ChainListRefs(c.chains, false)
      ensures Good(ds, ks, b, r)
    {
      assert !Misused(r, b, Declared(ds));
      if Wanted(r, b).Some? { WantedIsNeeded(ds, c, b, owner, r); }
    }
  }

  lemma WantedIsNeeded(ds: seq<Decl>, c: Callable, b: Bindings, owner: Option<Key>, r: NodeRef)
    requires Body(ds, c, b, owner) && r in ChainListRefs(c.chains, false) && Wanted(r, b).Some?
    ensures Needed(ds, Wanted(r, b).value)
  {
    var k := Wanted(r, b).value;
    if owner.None? {
      assert NeededAfter(ds, k, 0);
    } else {
      var n: nat :| NeededAfter(ds, owner.value, n);
      assert NeededAfter(ds, k, n + 1);
    }
  }

  /** The body of a callable runs in the expansion as it does in the module, given that its calls do. */
  lemma BodyRuns(
    ds: seq<Decl>, ks: seq<Key>, out: seq<Decl>, prim: (QName, Value) -> Option<Value>,
    c: Callable, c': Callable, b: Bindings, owner: Option<Key>, v: Value, fuel: nat)
    requires IsExpansion(ds, ks, out) && Nameable(ds, ks) && Body(ds, c, b, owner)
    requires c'.inputs == c.inputs && c'.outputs == c.outputs && c'.chains == RewriteChains(c.chains, b)
    ensures RunCallable(c, v, Calling(Declared(ds), prim, b, fuel))
         == RunCallable(c', v, Calling(Declared(out), prim, map[], fuel))
    decreases fuel, 1
  {
    var c1 := Calling(Declared(ds), prim, b, fuel);
    var c2 := Calling(Declared(out), prim, map[], fuel);
    BodyIsGood(ds, ks, out, c, b, owner);
    hide Declared, IsExpansion, Nameable, Good, RewriteChains, ChainListRefs, RunCallable;
    forall r, u | Good(ds, ks, b, r)
      ensures c1(r, u) == c2(RewriteRef(r, b), u)
    {
      CallRuns(ds, ks, out, prim, b, r, u, fuel);
    }
    assert Agree(ChainListRefs(c.chains, false), b, c1, c2);
    assert Quiet(ChainListRefs(c.chains, true), c1, c2) by {
      forall r | r in ChainListRefs(c.chains, true)
        ensures RewriteRef(r, b) == r
      {}
    }
    CallableRuns(c, c', b, v, c1, c2);
  }

  lemma RunNode(lib: Library, prim: (QName, Value) -> Option<Value>, b: Bindings, r: NodeRef, v: Value, fuel: nat)
    requires fuel > 0 && Wanted(r, b).None? && (r.base in b ==> r.args == [])
    ensures var n := Actual(r.base, b);
            Run(lib, prim, b, r, v, fuel) ==
            if n in lib.nodes then RunCallable(lib.nodes[n], v, Calling(lib, prim, map[], fuel - 1)) else prim(n, v)
  {}

  lemma RunInstance(lib: Library, prim: (QName, Value) -> Option<Value>, b: Bindings, r: NodeRef, v: Value, fuel: nat)
    requires fuel > 0 && Wanted(r, b).Some? && WellKeyed(Wanted(r, b).value, lib)
    ensures var k := Wanted(r, b).value;
            Run(lib, prim, b, r, v, fuel) ==
            RunCallable(lib.templates[k.template], v, Calling(lib, prim, KeyBindings(k, lib), fuel - 1))
  {}

  /** A call in the module is the rewritten call in the expansion, however many calls are nested in it. */
  lemma {:induction false} CallRuns(
    ds: seq<Decl>, ks: seq<Key>, out: seq<Decl>, prim: (QName, Value) -> Option<Value>,
    b: Bindings, r: NodeRef, v: Value, fuel: nat)
    requires IsExpansion(ds, ks, out) && Nameable(ds, ks) && Good(ds, ks, b, r)
    ensures Run(Declared(ds), prim, b, r, v, fuel) == Run(Declared(out), prim, map[], RewriteRef(r, b), v, fuel)
    decreases fuel, 0
  {
    if fuel > 0 {
      if Wanted(r, b).Some? {
        InstanceRuns(ds, ks, out, prim, b, r, v, fuel);
      } else {
        PlainRuns(ds, ks, out, prim, b, r, v, fuel);
      }
    }
  }

  lemma {:induction false} PlainRuns(
    ds: seq<Decl>, ks: seq<Key>, out: seq<Decl>, prim: (QName, Value) -> Option<Value>,
    b: Bindings, r: NodeRef, v: Value, fuel: nat)
    requires IsExpansion(ds, ks, out) && Nameable(ds, ks) && Good(ds, ks, b, r)
    requires fuel > 0 && Wanted(r, b).None?
    ensures Run(Declared(ds), prim, b, r, v, fuel) == Run(Declared(out), prim, map[], RewriteRef(r, b), v, fuel)
    decreases fuel - 1, 3
  {
    hide Run, RunCallable, Calling, Declared, RewriteChains, IsExpansion, Nameable, InstanceName, RewriteCallable;
    var n := Actual(r.base, b);
    var r' := RewriteRef(r, b);
    PlainLookup(ds, ks, out, n);
    RunNode(Declared(ds), prim, b, r, v, fuel);
    RunNode(Declared(out), prim, map[], r', v, fuel);
    if n in Declared(ds).nodes {
      DeclaredFrom(ds);
      var c := Declared(ds).nodes[n];
      Joined(ds, ks, out, prim, c, RewriteCallable(c, map[]), map[], None, v, fuel - 1,
             Run(Declared(ds), prim, b, r, v, fuel), Run(Declared(out), prim, map[], r', v, fuel));
    }
  }

  lemma BodyOfInstance(ds: seq<Decl>, ks: seq<Key>, out: seq<Decl>, k: Key)
    requires IsExpansion(ds, ks, out) && k in ks
    ensures WellKeyed(k, Declared(ds))
    ensures Body(ds, Declared(ds).templates[k.template], KeyBindings(k, Declared(ds)), Some(k))
  {}

  lemma {:induction false} InstanceRuns(
    ds: seq<Decl>, ks: seq<Key>, out: seq<Decl>, prim: (QName, Value) -> Option<Value>,
    b: Bindings, r: NodeRef, v: Value, fuel: nat)
    requires IsExpansion(ds, ks, out) && Nameable(ds, ks)
    requires fuel > 0 && Wanted(r, b).Some? && Wanted(r, b).value in ks
    ensures Run(Declared(ds), prim, b, r, v, fuel)
         == Run(Declared(out), prim, map[], NodeRef([InstanceName(Wanted(r, b).value)], []), v, fuel)
    decreases fuel - 1, 3
  {
    hide Run, RunCallable, Calling, Declared, RewriteChains, IsExpansion, Nameable, Body, InstanceName, RewriteCallable;
    var k := Wanted(r, b).value;
    BodyOfInstance(ds, ks, out, k);
    RunsToInstance(ds, ks, out, prim, k, v, fuel);
    var lib := Declared(ds);
    RunInstance(lib, prim, b, r, v, fuel);
    Joined(ds, ks, out, prim, lib.templates[k.template], Instance(k, lib), KeyBindings(k, lib), Some(k), v, fuel - 1,
           Run(lib, prim, b, r, v, fuel), Run(Declared(out), prim, map[], NodeRef([InstanceName(k)], []), v, fuel));
  }

  lemma {:induction false} Joined(
    ds: seq<Decl>, ks: seq<Key>, out: seq<Decl>, prim: (QName, Value) -> Option<Value>,
    c: Callable, c': Callable, b: Bindings, owner: Option<Key>, v: Value, fuel: nat,
    before: Option<Value>, after: Option<Value>)
    requires IsExpansion(ds, ks, out) && Nameable(ds, ks) && Body(ds, c, b, owner)
    requires c'.inputs == c.inputs && c'.outputs == c.outputs && c'.chains == RewriteChains(c.chains, b)
    requires before == RunCallable(c, v, Calling(Declared(ds), prim, b, fuel))
    requires after == RunCallable(c', v, Calling(Declared(out), prim, map[], fuel))
    ensures before == after
    decreases fuel, 2
  {
    hide *;
    BodyRuns(ds, ks, out, prim, c, c', b, owner, v, fuel);
  }

  lemma RunsToInstance(
    ds: seq<Decl>, ks: seq<Key>, out: seq<Decl>, prim: (QName, Value) -> Option<Value>, k: Key, v: Value, fuel: nat)
    requires IsExpansion(ds, ks, out) && Nameable(ds, ks) && k in ks && fuel > 0 && WellKeyed(k, Declared(ds))
    ensures Run(Declared(out), prim, map[], NodeRef([InstanceName(k)], []), v, fuel)
         == RunCallable(Instance(k, Declared(ds)), v, Calling(Declared(out), prim, map[], fuel - 1))
  {
    var i := NodeRef([InstanceName(k)], []);
    assert Wanted(i, map[]).None? && Actual(i.base, map[]) == i.base;
    hide *;
    InstanceLookup(ds, ks, out, k);
    RunNode(Declared(out), prim, map[], i, v, fuel);
  }

  /** Every program and every node without static parameters means the same after expansion. */
  lemma ExpansionPreservesMeaning(
    ds: seq<Decl>, ks: seq<Key>, out: seq<Decl>, prim: (QName, Value) -> Option<Value>, d: Decl, v: Value, fuel: nat)
    requires IsExpansion(ds, ks, out) && Nameable(ds, ks)
    requires d in ds && IsRoot(d)
    ensures RunCallable(d.callable, v, Calling(Declared(ds), prim, map[], fuel))
         == RunCallable(KeptDecl(d).callable, v, Calling(Declared(out), prim, map[], fuel))
  {
    BodyRuns(ds, ks, out, prim, d.callable, KeptDecl(d).callable, map[], None, v, fuel);
  }

  /** A template applied to nodes means what its instance means. */
  lemma InstancesMeanTheirTemplates(
    ds: seq<Decl>, ks: seq<Key>, out: seq<Decl>, prim: (QName, Value) -> Option<Value>, k: Key, v: Value, fuel: nat)
    requires IsExpansion(ds, ks, out) && Nameable(ds, ks) && k in ks
    ensures Run(Declared(ds), prim, map[], NodeRef(k.template, k.args), v, fuel)
         == Run(Declared(out), prim, map[], NodeRef([InstanceName(k)], []), v, fuel)
  {
    if fuel > 0 && k.args != [] {
      assert Actuals(k.args, map[]) == k.args;
      InstanceRuns(ds, ks, out, prim, map[], NodeRef(k.template, k.args), v, fuel);
    } else if fuel > 0 {
      DeclaredFrom(ds);
    }
  }
}
