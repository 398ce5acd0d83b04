/** The pass of src/monomorphize.rs: one memo table, one list of generated nodes, one stack of open instances. */
module Monomorphizer {
  import opened Ast
  import opened Dataflow
  import opened Monomorphizing
  import Expansion

  // ---- The instances a module can ask for ----

  /** Every name the module passes as an argument. */
  ghost function Arguments(ds: seq<Decl>): set<QName>
  {
    set d, r, a | d in ds && (d.Node? || d.Program?) && r in ChainListRefs(d.callable.chains, false) && a in r.args :: a
  }

  ghost function Tuples(pool: set<QName>, n: nat): set<seq<QName>>
  {
    if n == 0 then {[]} else set t, q | t in Tuples(pool, n - 1) && q in pool :: t + [q]
  }

  ghost function Universe(ds: seq<Decl>): set<Key>
  {
    var lib := Declared(ds);
    set t, args | t in lib.templates && args in Tuples(Arguments(ds), |lib.templates[t].nodeParams|) :: Key(t, args)
  }

  lemma {:induction false} TuplesHold(pool: set<QName>, args: seq<QName>)
    requires forall a :: a in args ==> a in pool
    ensures args in Tuples(pool, |args|)
  {
    if args != [] {
      var front := args[..|args| - 1];
      TuplesHold(pool, front);
      assert args == front + [args[|args| - 1]];
    }
  }

  lemma {:induction false} NeededArgs(ds: seq<Decl>, k: Key, n: nat)
    requires NeededAfter(ds, k, n)
    ensures forall a :: a in k.args ==> a in Arguments(ds)
    decreases n
  {
    hide Declared, ChainListRefs, Actuals;
    var lib := Declared(ds);
    if n == 0 {
      var d, r :| d in ds && IsRoot(d) && r in ChainListRefs(d.callable.chains, false)
        && Wanted(r, map[]) == Some(k);
      assert forall a :: a in r.args ==> a in Arguments(ds);
    } else {
      Expansion.DeclaredFrom(ds);
      var p, r :| NeededAfter(ds, p, n - 1) && WellKeyed(p, lib)
        && r in ChainListRefs(lib.templates[p.template].chains, false)
        && Wanted(r, KeyBindings(p, lib)) == Some(k);
      var d :| d in ds && d.Node? && d.callable == lib.templates[p.template];
      assert forall a :: a in r.args ==> a in Arguments(ds);
      NeededArgs(ds, p, n - 1);
      Expansion.BoundNames(d.callable.nodeParams, p.args);
    }
  }

  lemma NeededInUniverse(ds: seq<Decl>, k: Key)
    requires Needed(ds, k) && WellKeyed(k, Declared(ds))
    ensures k in Universe(ds)
  {
    var n: nat :| NeededAfter(ds, k, n);
    NeededArgs(ds, k, n);
    TuplesHold(Arguments(ds), k.args);
    assert k.args in Tuples(Arguments(ds), |Declared(ds).templates[k.template].nodeParams|);
  }

  // ---- The state ----

  /** The references are in order, and the instances they ask for are in the memo table. */
  ghost predicate Served(lib: Library, instances: map<Key, string>, rs: set<NodeRef>, b: Bindings)
  {
    forall r :: r in rs ==> !Misused(r, b, lib) && (Wanted(r, b).Some? ==> Wanted(r, b).value in instances)
  }

  /** A finished instance is in the list and has all it asks for. */
  ghost predicate Finished(lib: Library, instances: map<Key, string>, k: Key, node: Callable)
  {
    && WellKeyed(k, lib)
    && node == Instance(k, lib)
    && Served(lib, instances, ChainListRefs(lib.templates[k.template].chains, false), KeyBindings(k, lib))
  }

  /** `done` are the keys of the generated nodes; every other key of the table is open. */
  ghost predicate Consistent(
    ds: seq<Decl>, instances: map<Key, string>, generated: seq<Callable>, active: seq<Key>, done: seq<Key>)
  {
    var lib := Declared(ds);
    && (forall k :: k in instances ==> WellKeyed(k, lib) && Needed(ds, k) && instances[k] == InstanceName(k))
    && (forall k :: k in instances <==> k in done || k in active)
    && Distinct(done + active)
    && |generated| == |done|
    && (forall i :: 0 <= i < |done| ==> Finished(lib, instances, done[i], generated[i]))
  }

  lemma Opened(
    ds: seq<Decl>, instances: map<Key, string>, generated: seq<Callable>, active: seq<Key>, done: seq<Key>, k: Key)
    requires Consistent(ds, instances, generated, active, done)
    requires k !in instances && WellKeyed(k, Declared(ds)) && Needed(ds, k)
    ensures Consistent(ds, instances[k := InstanceName(k)], generated, active + [k], done)
  {
    hide WellKeyed, Needed, InstanceName, Instance, Declared, ChainListRefs, Misused, Wanted;
    assert done + (active + [k]) == (done + active) + [k];
  }

  lemma Closed(
    ds: seq<Decl>, instances: map<Key, string>, generated: seq<Callable>, active: seq<Key>, done: seq<Key>,
    k: Key, node: Callable)
    requires Consistent(ds, instances, generated, active + [k], done)
    requires Finished(Declared(ds), instances, k, node)
    ensures Consistent(ds, instances, generated + [node], active, done + [k])
  {
    hide WellKeyed, Needed, InstanceName, Instance, Declared, Finished;
    var was := done + (active + [k]);
    var now := (done + [k]) + active;
    forall i, j | 0 <= i < j < |now|
      ensures now[i] != now[j]
    {
      assert now[i] == was[if i < |done| then i else if i == |done| then |was| - 1 else i - 1];
      assert now[j] == was[if j < |done| then j else if j == |done| then |was| - 1 else j - 1];
    }
    assert was[|was| - 1] == k;
  }

  lemma FinishedNow(lib: Library, instances: map<Key, string>, k: Key, node: Callable)
    requires WellKeyed(k, lib)
    requires
      var c := lib.templates[k.template];
      && Served(lib, instances, ChainListRefs(c.chains, false), KeyBindings(k, lib))
      && node == c.(name := InstanceName(k), isExtern := false, nodeParams := [],
                    chains := RewriteChains(c.chains, KeyBindings(k, lib)))
    ensures Finished(lib, instances, k, node)
  {}

  lemma ServedOne(lib: Library, instances: map<Key, string>, r: NodeRef, b: Bindings)
    requires Wanted(r, b).Some? && Wanted(r, b).value in instances && WellKeyed(Wanted(r, b).value, lib)
    ensures Served(lib, instances, {r}, b)
  {}

  /** Open instances are memoised, so the memo table is the only guard that a lookup needs. */
  lemma Memo(
    ds: seq<Decl>, instances: map<Key, string>, generated: seq<Callable>, active: seq<Key>, done: seq<Key>, k: Key)
    requires Consistent(ds, instances, generated, active, done)
    ensures k in active ==> k in instances
    ensures k in instances ==> WellKeyed(k, Declared(ds)) && instances[k] == InstanceName(k)
  {}

  /** A reference of the module asks for a needed instance, and a wrong one refuses the module. */
  lemma Asked(ds: seq<Decl>, r: NodeRef, c: Callable, b: Bindings, owner: Option<Key>)
    requires Body(ds, c, b, owner) && r in ChainListRefs(c.chains, false) && Wanted(r, b).Some?
    ensures Needed(ds, Wanted(r, b).value)
    ensures
      var k := Wanted(r, b).value;
      var lib := Declared(ds);
      if k.template in lib.templates && |lib.templates[k.template].nodeParams| == |k.args| then WellKeyed(k, lib)
      else Refused(ds)
  {
    hide Body, ChainListRefs, Declared, Needed, NeededAfter;
    Expansion.WantedIsNeeded(ds, c, b, owner, r);
    if !WellKeyed(Wanted(r, b).value, Declared(ds)) {
      assert Misused(r, b, Declared(ds));
    }
  }

  lemma BodyOfTemplate(ds: seq<Decl>, k: Key)
    requires Needed(ds, k) && WellKeyed(k, Declared(ds))
    ensures
      var c := Declared(ds).templates[k.template];
      && |c.nodeParams| == |k.args|
      && KeyBindings(k, Declared(ds)) == Parameters(c.nodeParams, k.args)
      && Body(ds, c, KeyBindings(k, Declared(ds)), Some(k))
  {}

  lemma ServedNone(lib: Library, instances: map<Key, string>, b: Bindings)
    ensures Served(lib, instances, {}, b)
  {}

  lemma ServedMore(
    lib: Library, before: map<Key, string>, now: map<Key, string>, rs: set<NodeRef>, rs': set<NodeRef>, b: Bindings)
    requires Served(lib, before, rs, b) && before.Keys <= now.Keys && Served(lib, now, rs', b)
    ensures Served(lib, now, rs + rs', b)
  {}

  lemma NoChains(b: Bindings)
    ensures ChainListRefs([], false) == {} && RewriteChains([], b) == []
  {}

  lemma NoFields(b: Bindings)
    ensures FieldRefs([], false) == {} && Monomorphizing.RewriteFields([], b) == []
  {}

  lemma NextField(fields: seq<Field>, i: nat, b: Bindings)
    requires i < |fields|
    ensures FieldRefs(fields[i..], false) == EndpointRefs(fields[i].value, false) + FieldRefs(fields[i + 1..], false)
    ensures
      Monomorphizing.RewriteFields(fields[i..], b)
      == [Field(fields[i].name, Monomorphizing.RewriteEndpoint(fields[i].value, b))] + Monomorphizing.RewriteFields(fields[i + 1..], b)
  {
    assert fields[i..][1..] == fields[i + 1..];
  }

  lemma NoArms(b: Bindings)
    ensures ArmListRefs([], false) == {} && Monomorphizing.RewriteArms([], b) == []
  {}

  lemma NextArm(arms: seq<MatchArm>, i: nat, b: Bindings)
    requires i < |arms|
    ensures ArmListRefs(arms[i..], false) == ArmRefs(arms[i], false) + ArmListRefs(arms[i + 1..], false)
    ensures
      Monomorphizing.RewriteArms(arms[i..], b)
      == [Monomorphizing.RewriteArm(arms[i], b)] + Monomorphizing.RewriteArms(arms[i + 1..], b)
  {
    assert arms[i..][1..] == arms[i + 1..];
  }

  lemma NoItems(b: Bindings)
    ensures ItemRefs([], false) == {} && Monomorphizing.RewriteItems([], b) == []
  {}

  lemma NextItem(items: seq<Endpoint>, i: nat, b: Bindings)
    requires i < |items|
    ensures ItemRefs(items[i..], false) == EndpointRefs(items[i], false) + ItemRefs(items[i + 1..], false)
    ensures
      Monomorphizing.RewriteItems(items[i..], b)
      == [Monomorphizing.RewriteEndpoint(items[i], b)] + Monomorphizing.RewriteItems(items[i + 1..], b)
  {
    assert items[i..][1..] == items[i + 1..];
  }

  lemma NoStages(b: Bindings)
    ensures StageListRefs([], false) == {} && Monomorphizing.RewriteStages([], b) == []
  {}

  lemma NextStage(stages: seq<Stage>, i: nat, b: Bindings)
    requires i < |stages|
    ensures StageListRefs(stages[i..], false) == StageRefs(stages[i], false) + StageListRefs(stages[i + 1..], false)
    ensures
      Monomorphizing.RewriteStages(stages[i..], b)
      == [Monomorphizing.RewriteStage(stages[i], b)] + Monomorphizing.RewriteStages(stages[i + 1..], b)
  {
    assert stages[i..][1..] == stages[i + 1..];
  }

  lemma NextChain(chains: seq<Chain>, i: nat, b: Bindings)
    requires i < |chains|
    ensures ChainListRefs(chains[i..], false) == ChainRefs(chains[i], false) + ChainListRefs(chains[i + 1..], false)
    ensures RewriteChains(chains[i..], b) == [Monomorphizing.RewriteChain(chains[i], b)] + RewriteChains(chains[i + 1..], b)
  {
    assert chains[i..][1..] == chains[i + 1..];
  }

  lemma ParametersOnProgram(ds: seq<Decl>, d: Decl)
    requires d in ds && d.Program? && d.callable.nodeParams != []
    ensures Refused(ds)
  {}

  /** When nothing is open any more, the table holds every needed instance. */
  lemma {:induction false} NeededIsMemoised(
    ds: seq<Decl>, instances: map<Key, string>, generated: seq<Callable>, done: seq<Key>, k: Key, n: nat)
    requires Consistent(ds, instances, generated, [], done)
    requires forall d :: d in ds && IsRoot(d) ==>
      Served(Declared(ds), instances, ChainListRefs(d.callable.chains, false), map[])
    requires NeededAfter(ds, k, n)
    ensures k in instances
    decreases n
  {
    hide Declared, ChainListRefs, Misused, Instance;
    var lib := Declared(ds);
    if n > 0 {
      var p, r :| NeededAfter(ds, p, n - 1) && WellKeyed(p, lib)
        && r in ChainListRefs(lib.templates[p.template].chains, false)
        && Wanted(r, KeyBindings(p, lib)) == Some(k);
      NeededIsMemoised(ds, instances, generated, done, p, n - 1);
      var i :| 0 <= i < |done| && done[i] == p;
      assert Finished(lib, instances, done[i], generated[i]);
    }
  }

  lemma Complete(ds: seq<Decl>, instances: map<Key, string>, generated: seq<Callable>, done: seq<Key>)
    requires Consistent(ds, instances, generated, [], done)
    requires forall d :: d in ds && IsRoot(d) ==>
      Served(Declared(ds), instances, ChainListRefs(d.callable.chains, false), map[])
    requires forall d :: d in ds && d.Program? ==> d.callable.nodeParams == []
    ensures !Refused(ds)
    ensures Distinct(done) && forall k :: k in done <==> Needed(ds, k)
    ensures forall k :: k in done ==> WellKeyed(k, Declared(ds))
    ensures |generated| == |done|
    ensures forall i :: 0 <= i < |done| ==> generated[i] == Instance(done[i], Declared(ds))
  {
    hide Declared, ChainListRefs, Misused, Instance, NeededAfter;
    assert done + [] == done;
    forall k | Needed(ds, k)
      ensures k in done
    {
      var n: nat :| NeededAfter(ds, k, n);
      NeededIsMemoised(ds, instances, generated, done, k, n);
    }
    forall c, b, owner, r | Body(ds, c, b, owner) && r in ChainListRefs(c.chains, false)
      ensures !Misused(r, b, Declared(ds))
    {
      if owner.Some? {
        var i :| 0 <= i < |done| && done[i] == owner.value;
        assert Finished(Declared(ds), instances, done[i], generated[i]);
      }
    }
  }

  class Monomorphizer {
    ghost const ds: seq<Decl>
    const templates: map<QName, Callable>
    var instances: map<Key, string>
    var generated: seq<Callable>
    var active: seq<Key>
    ghost var done: seq<Key>

    ghost predicate Valid()
      reads this
    {
      templates == Declared(ds).templates && Consistent(ds, instances, generated, active, done)
    }

    ghost function Room(): set<Key>
      reads this
    {
      Universe(ds) - instances.Keys
    }

    /** One callable is being rewritten; `rs` are references of it. */
    ghost predicate Rewriting(rs: set<NodeRef>, c: Callable, b: Bindings, owner: Option<Key>)
      reads this
    {
      Valid() && Body(ds, c, b, owner) && rs <= ChainListRefs(c.chains, false)
    }

    /** The memo table only grows, and the stack is as it was. */
    twostate predicate Rewrote(rs: set<NodeRef>, b: Bindings)
      reads this
    {
      && Valid()
      && active == old(active)
      && old(instances).Keys <= instances.Keys
      && Served(Declared(ds), instances, rs, b)
    }

    method Instantiate(template: QName, args: seq<QName>, ghost r: NodeRef,
                       ghost c: Callable, ghost b: Bindings, ghost owner: Option<Key>)
      returns (name: Option<string>)
      requires Rewriting({r}, c, b, owner) && Wanted(r, b) == Some(Key(template, args))
      modifies this
      ensures name.Some? ==> Rewrote({r}, b) && name.value == InstanceName(Key(template, args))
      ensures name.None? ==> Refused(ds)
      decreases Room(), 0, 0
    {
      hide Consistent, Served, Finished, Universe, InstanceName, Misused, Body, Declared, ChainListRefs, Needed,
        NeededAfter, WellKeyed, KeyBindings, Instance, RewriteChains, Wanted;
      var key := Key(template, args);
      Memo(ds, instances, generated, active, done, key);
      if key in instances {
        ServedOne(Declared(ds), instances, r, b);
        return Some(instances[key]);
      }
      if key in active {
        assert false;
      }
      Asked(ds, r, c, b, owner);
      if template !in templates || |templates[template].nodeParams| != |args| {
        return None;
      }
      var callable := templates[template];
      var generatedName := InstanceName(key);
      var bindings := Parameters(callable.nodeParams, args);
      ghost var lib := Declared(ds);
      NeededInUniverse(ds, key);
      Opened(ds, instances, generated, active, done, key);
      BodyOfTemplate(ds, key);
      assert Universe(ds) - instances.Keys > Universe(ds) - (instances.Keys + {key}) by {
        assert key in Universe(ds) - instances.Keys;
      }
      instances := instances[key := generatedName];
      active := active + [key];
      var chains := RewriteCallable(callable.chains, bindings, callable, Some(key));
      if chains.None? {
        return None;
      }
      var node := callable.(name := generatedName, isExtern := false, nodeParams := [], chains := chains.value);
      FinishedNow(lib, instances, key, node);
      assert active == active[..|active| - 1] + [key];
      Closed(ds, instances, generated, active[..|active| - 1], done, key, node);
      generated := generated + [node];
      active := active[..|active| - 1];
      done := done + [key];
      ServedOne(lib, instances, r, b);
      return Some(generatedName);
    }

    method RewriteNodeName(r: NodeRef, b: Bindings, ghost c: Callable, ghost owner: Option<Key>)
      returns (name: Option<NodeRef>)
      requires Rewriting({r}, c, b, owner)
      modifies this
      ensures name.Some? ==> Rewrote({r}, b) && name.value == RewriteRef(r, b)
      ensures name.None? ==> Refused(ds)
      decreases Room(), 0, 1
    {
      if r.base in b {
        if r.args != [] {
          assert Misused(r, b, Declared(ds));
          return None;
        }
        return Some(NodeRef(b[r.base], []));
      }
      var args := Actuals(r.args, b);
      if args == [] {
        return Some(NodeRef(r.base, []));
      }
      var instance := Instantiate(r.base, args, r, c, b, owner);
      if instance.None? {
        return None;
      }
      return Some(NodeRef([instance.value], []));
    }

    method RewriteCallable(chains: seq<Chain>, b: Bindings, ghost c: Callable, ghost owner: Option<Key>)
      returns (out: Option<seq<Chain>>)
      requires Rewriting(ChainListRefs(chains, false), c, b, owner)
      modifies this
      ensures out.Some? ==> Rewrote(ChainListRefs(chains, false), b) && out.value == RewriteChains(chains, b)
      ensures out.None? ==> Refused(ds)
      decreases Room(), 2
    {
      hide Consistent, Served, Body, Declared, Universe, ChainListRefs, ChainRefs, RewriteChains, Refused;
      var done: seq<Chain> := [];
      ghost var seen: set<NodeRef> := {};
      ServedNone(Declared(ds), instances, b);
      NoChains(b);
      for i := 0 to |chains|
        invariant Rewrote(seen, b)
        invariant seen + ChainListRefs(chains[i..], false) == ChainListRefs(chains, false)
        invariant done + RewriteChains(chains[i..], b) == RewriteChains(chains, b)
      {
        NextChain(chains, i, b);
        ghost var before := instances;
        var next := RewriteChain(chains[i], b, c, owner);
        if next.None? {
          return None;
        }
        ServedMore(Declared(ds), before, instances, seen, ChainRefs(chains[i], false), b);
        seen := seen + ChainRefs(chains[i], false);
        done := done + [next.value];
      }
      return Some(done);
    }

    method RewriteChain(chain: Chain, b: Bindings, ghost c: Callable, ghost owner: Option<Key>)
      returns (out: Option<Chain>)
      requires Rewriting(ChainRefs(chain, false), c, b, owner)
      modifies this
      ensures out.Some? ==> Rewrote(ChainRefs(chain, false), b) && out.value == Monomorphizing.RewriteChain(chain, b)
      ensures out.None? ==> Refused(ds)
      decreases Room(), 1, chain
    {
      hide Consistent, Served, Body, Declared, ChainListRefs, Universe, EndpointRefs, StageListRefs, Refused;
      var source := RewriteEndpoint(chain.source, b, c, owner);
      if source.None? {
        return None;
      }
      ghost var before := instances;
      var stages := RewriteStages(chain.stages, b, c, owner);
      if stages.None? {
        return None;
      }
      ServedMore(Declared(ds), before, instances, EndpointRefs(chain.source, false), StageListRefs(chain.stages, false), b);
      return Some(Chain(source.value, stages.value));
    }

    method RewriteStages(stages: seq<Stage>, b: Bindings, ghost c: Callable, ghost owner: Option<Key>)
      returns (out: Option<seq<Stage>>)
      requires Rewriting(StageListRefs(stages, false), c, b, owner)
      modifies this
      ensures out.Some? ==> Rewrote(StageListRefs(stages, false), b) && out.value == Monomorphizing.RewriteStages(stages, b)
      ensures out.None? ==> Refused(ds)
      decreases Room(), 1, stages
    {
      hide Consistent, Served, Body, Declared, ChainListRefs, Universe, StageRefs, StageListRefs,
           Monomorphizing.RewriteStages, Refused;
      var done: seq<Stage> := [];
      ghost var seen: set<NodeRef> := {};
      ServedNone(Declared(ds), instances, b);
      NoStages(b);
      for i := 0 to |stages|
        invariant Rewrote(seen, b)
        invariant seen + StageListRefs(stages[i..], false) == StageListRefs(stages, false)
        invariant done + Monomorphizing.RewriteStages(stages[i..], b) == Monomorphizing.RewriteStages(stages, b)
      {
        NextStage(stages, i, b);
        ghost var before := instances;
        var next := RewriteStage(stages[i], b, c, owner);
        if next.None? {
          return None;
        }
        ServedMore(Declared(ds), before, instances, seen, StageRefs(stages[i], false), b);
        seen := seen + StageRefs(stages[i], false);
        done := done + [next.value];
      }
      return Some(done);
    }

    method RewriteItems(items: seq<Endpoint>, b: Bindings, ghost c: Callable, ghost owner: Option<Key>)
      returns (out: Option<seq<Endpoint>>)
      requires Rewriting(ItemRefs(items, false), c, b, owner)
      modifies this
      ensures out.Some? ==> Rewrote(ItemRefs(items, false), b) && out.value == Monomorphizing.RewriteItems(items, b)
      ensures out.None? ==> Refused(ds)
      decreases Room(), 1, items
    {
      hide Consistent, Served, Body, Declared, ChainListRefs, Universe, EndpointRefs, ItemRefs,
           Monomorphizing.RewriteItems, Refused;
      var done: seq<Endpoint> := [];
      ghost var seen: set<NodeRef> := {};
      ServedNone(Declared(ds), instances, b);
      NoItems(b);
      for i := 0 to |items|
        invariant Rewrote(seen, b)
        invariant seen + ItemRefs(items[i..], false) == ItemRefs(items, false)
        invariant done + Monomorphizing.RewriteItems(items[i..], b) == Monomorphizing.RewriteItems(items, b)
      {
        NextItem(items, i, b);
        ghost var before := instances;
        var next := RewriteEndpoint(items[i], b, c, owner);
        if next.None? {
          return None;
        }
        ServedMore(Declared(ds), before, instances, seen, EndpointRefs(items[i], false), b);
        seen := seen + EndpointRefs(items[i], false);
        done := done + [next.value];
      }
      return Some(done);
    }

    method RewriteFields(fields: seq<Field>, b: Bindings, ghost c: Callable, ghost owner: Option<Key>)
      returns (out: Option<seq<Field>>)
      requires Rewriting(FieldRefs(fields, false), c, b, owner)
      modifies this
      ensures out.Some? ==> Rewrote(FieldRefs(fields, false), b) && out.value == Monomorphizing.RewriteFields(fields, b)
      ensures out.None? ==> Refused(ds)
      decreases Room(), 1, fields
    {
      hide Consistent, Served, Body, Declared, ChainListRefs, Universe, EndpointRefs, FieldRefs,
           Monomorphizing.RewriteFields, Refused;
      var done: seq<Field> := [];
      ghost var seen: set<NodeRef> := {};
      ServedNone(Declared(ds), instances, b);
      NoFields(b);
      for i := 0 to |fields|
        invariant Rewrote(seen, b)
        invariant seen + FieldRefs(fields[i..], false) == FieldRefs(fields, false)
        invariant done + Monomorphizing.RewriteFields(fields[i..], b) == Monomorphizing.RewriteFields(fields, b)
      {
        NextField(fields, i, b);
        ghost var before := instances;
        var next := RewriteEndpoint(fields[i].value, b, c, owner);
        if next.None? {
          return None;
        }
        ServedMore(Declared(ds), before, instances, seen, EndpointRefs(fields[i].value, false), b);
        seen := seen + EndpointRefs(fields[i].value, false);
        done := done + [Field(fields[i].name, next.value)];
      }
      return Some(done);
    }

    method RewriteArms(arms: seq<MatchArm>, b: Bindings, ghost c: Callable, ghost owner: Option<Key>)
      returns (out: Option<seq<MatchArm>>)
      requires Rewriting(ArmListRefs(arms, false), c, b, owner)
      modifies this
      ensures out.Some? ==> Rewrote(ArmListRefs(arms, false), b) && out.value == Monomorphizing.RewriteArms(arms, b)
      ensures out.None? ==> Refused(ds)
      decreases Room(), 1, arms
    {
      hide Consistent, Served, Body, Declared, ChainListRefs, Universe, ArmRefs, ArmListRefs,
           Monomorphizing.RewriteArms, Refused;
      var done: seq<MatchArm> := [];
      ghost var seen: set<NodeRef> := {};
      ServedNone(Declared(ds), instances, b);
      NoArms(b);
      for i := 0 to |arms|
        invariant Rewrote(seen, b)
        invariant seen + ArmListRefs(arms[i..], false) == ArmListRefs(arms, false)
        invariant done + Monomorphizing.RewriteArms(arms[i..], b) == Monomorphizing.RewriteArms(arms, b)
      {
        NextArm(arms, i, b);
        ghost var before := instances;
        var next := RewriteArm(arms[i], b, c, owner);
        if next.None? {
          return None;
        }
        ServedMore(Declared(ds), before, instances, seen, ArmRefs(arms[i], false), b);
        seen := seen + ArmRefs(arms[i], false);
        done := done + [next.value];
      }
      return Some(done);
    }

    /** Identities and counts are not rewritten. */
    method RewriteStage(stage: Stage, b: Bindings, ghost c: Callable, ghost owner: Option<Key>)
      returns (out: Option<Stage>)
      requires Rewriting(StageRefs(stage, false), c, b, owner)
      modifies this
      ensures out.Some? ==> Rewrote(StageRefs(stage, false), b) && out.value == Monomorphizing.RewriteStage(stage, b)
      ensures out.None? ==> Refused(ds)
      decreases Room(), 1, stage
    {
      hide Consistent, Served, Body, Declared, ChainListRefs, Universe, EndpointRefs, ArmListRefs, Refused;
      ServedNone(Declared(ds), instances, b);
      match stage
      case Value(endpoint) =>
        var e := RewriteEndpoint(endpoint, b, c, owner);
        return if e.None? then None else Some(Value(e.value));
      case Bind(_) => return Some(stage);
      case FieldOf(_) => return Some(stage);
      case Match(arms) =>
        var arms' := RewriteArms(arms, b, c, owner);
        return if arms'.None? then None else Some(Match(arms'.value));
      case Map(node) =>
        var name := RewriteNodeName(node, b, c, owner);
        return if name.None? then None else Some(Map(name.value));
      case FaultMap(node, ok, fault) =>
        var name := RewriteNodeName(node, b, c, owner);
        return if name.None? then None else Some(FaultMap(name.value, ok, fault));
      case Filter(node) =>
        var name := RewriteNodeName(node, b, c, owner);
        return if name.None? then None else Some(Filter(name.value));
      case Repeat(count, node) =>
        assert StageRefs(stage, false) == {node};
        var name := RewriteNodeName(node, b, c, owner);
        return if name.None? then None else Some(Repeat(count, name.value));
      case Reduce(node, identity) =>
        assert StageRefs(stage, false) == {node};
        var name := RewriteNodeName(node, b, c, owner);
        return if name.None? then None else Some(Reduce(name.value, identity));
      case Scan(node, identity) =>
        assert StageRefs(stage, false) == {node};
        var name := RewriteNodeName(node, b, c, owner);
        return if name.None? then None else Some(Scan(name.value, identity));
    }

    method RewriteArm(arm: MatchArm, b: Bindings, ghost c: Callable, ghost owner: Option<Key>)
      returns (out: Option<MatchArm>)
      requires Rewriting(ArmRefs(arm, false), c, b, owner)
      modifies this
      ensures out.Some? ==> Rewrote(ArmRefs(arm, false), b) && out.value == Monomorphizing.RewriteArm(arm, b)
      ensures out.None? ==> Refused(ds)
      decreases Room(), 1, arm
    {
      hide Consistent, Served, Body, Declared, ChainListRefs, Universe, GuardRefs, TargetRefs, Refused;
      var guard := RewriteGuard(arm.guard, b, c, owner);
      if guard.None? {
        return None;
      }
      ghost var before := instances;
      var target := RewriteTarget(arm.target, b, c, owner);
      if target.None? {
        return None;
      }
      ServedMore(Declared(ds), before, instances, GuardRefs(arm.guard, false), TargetRefs(arm.target, false), b);
      return Some(MatchArm(guard.value, target.value));
    }

    method RewriteGuard(guard: MatchGuard, b: Bindings, ghost c: Callable, ghost owner: Option<Key>)
      returns (out: Option<MatchGuard>)
      requires Rewriting(GuardRefs(guard, false), c, b, owner)
      modifies this
      ensures out.Some? ==> Rewrote(GuardRefs(guard, false), b) && out.value == Monomorphizing.RewriteGuard(guard, b)
      ensures out.None? ==> Refused(ds)
      decreases Room(), 1, guard
    {
      hide Consistent, Served, Body, Declared, ChainListRefs, Universe, ItemRefs, Refused;
      ServedNone(Declared(ds), instances, b);
      match guard
      case Fallback => return Some(guard);
      case Call(node, args) =>
        var name := RewriteNodeName(node, b, c, owner);
        if name.None? {
          return None;
        }
        ghost var before := instances;
        var args' := RewriteItems(args, b, c, owner);
        if args'.None? {
          return None;
        }
        ServedMore(Declared(ds), before, instances, {node}, ItemRefs(args, false), b);
        return Some(Call(name.value, args'.value));
    }

    method RewriteTarget(target: MatchTarget, b: Bindings, ghost c: Callable, ghost owner: Option<Key>)
      returns (out: Option<MatchTarget>)
      requires Rewriting(TargetRefs(target, false), c, b, owner)
      modifies this
      ensures out.Some? ==> Rewrote(TargetRefs(target, false), b) && out.value == Monomorphizing.RewriteTarget(target, b)
      ensures out.None? ==> Refused(ds)
      decreases Room(), 1, target
    {
      hide Consistent, Served, Body, Declared, ChainListRefs, Universe, EndpointRefs, Refused;
      match target
      case ToNode(node) =>
        var name := RewriteNodeName(node, b, c, owner);
        return if name.None? then None else Some(ToNode(name.value));
      case ToValue(endpoint) =>
        var e := RewriteEndpoint(endpoint, b, c, owner);
        return if e.None? then None else Some(ToValue(e.value));
    }

    method RewriteEndpoint(e: Endpoint, b: Bindings, ghost c: Callable, ghost owner: Option<Key>)
      returns (out: Option<Endpoint>)
      requires Rewriting(EndpointRefs(e, false), c, b, owner)
      modifies this
      ensures out.Some? ==> Rewrote(EndpointRefs(e, false), b) && out.value == Monomorphizing.RewriteEndpoint(e, b)
      ensures out.None? ==> Refused(ds)
      decreases Room(), 1, e
    {
      hide Consistent, Served, Body, Declared, ChainListRefs, Universe, ItemRefs, FieldRefs, StageListRefs, Refused;
      ServedNone(Declared(ds), instances, b);
      match e
      case Name(node) =>
        var name := RewriteNodeName(node, b, c, owner);
        return if name.None? then None else Some(Name(name.value));
      case Tuple(items) =>
        var items' := RewriteItems(items, b, c, owner);
        return if items'.None? then None else Some(Tuple(items'.value));
      case Seq(items) =>
        var items' := RewriteItems(items, b, c, owner);
        return if items'.None? then None else Some(Seq(items'.value));
      case Struct(name, fields) =>
        var fields' := RewriteFields(fields, b, c, owner);
        return if fields'.None? then None else Some(Struct(name, fields'.value));
      case Eval(source, stages) =>
        var source' := RewriteEndpoint(source, b, c, owner);
        if source'.None? {
          return None;
        }
        ghost var before := instances;
        var stages' := RewriteStages(stages, b, c, owner);
        if stages'.None? {
          return None;
        }
        ServedMore(Declared(ds), before, instances, EndpointRefs(source, false), StageListRefs(stages, false), b);
        return Some(Eval(source'.value, stages'.value));
      case _ => return Some(e);
    }

    /** Templates by name; a later one hides an earlier one. */
    constructor (decls: seq<Decl>)
      ensures Valid() && ds == decls && active == [] && done == []
    {
      var found: map<QName, Callable> := map[];
      for i := 0 to |decls|
        invariant found == Declared(decls[..i]).templates
      {
        assert decls[..i + 1][..i] == decls[..i];
        if IsTemplate(decls[i]) {
          found := found[[decls[i].callable.name] := decls[i].callable];
        }
      }
      assert decls[..|decls|] == decls;
      ds := decls;
      templates := found;
      instances := map[];
      generated := [];
      active := [];
      done := [];
    }

    /** Fails exactly on the modules that are to be refused. */
    method Expand(decls: seq<Decl>) returns (out: Option<seq<Decl>>)
      requires Valid() && decls == ds && active == [] && done == []
      modifies this
      ensures out.Some? <==> !Refused(decls)
      ensures out.Some? ==> IsExpansion(decls, done, out.value)
    {
      hide Consistent, Served, Declared, Universe, ChainListRefs, Refused;
      var declarations: seq<Decl> := [];
      for i := 0 to |decls|
        invariant Valid() && active == []
        invariant declarations == Kept(decls[..i])
        invariant forall j :: 0 <= j < i && IsRoot(decls[j]) ==>
          Served(Declared(ds), instances, ChainListRefs(decls[j].callable.chains, false), map[])
        invariant forall j :: 0 <= j < i && decls[j].Program? ==> decls[j].callable.nodeParams == []
      {
        assert decls[..i + 1][..i] == decls[..i];
        var d := decls[i];
        if d.Program? && d.callable.nodeParams != [] {
          ParametersOnProgram(ds, d);
          return None;
        }
        if IsRoot(d) {
          ghost var before := instances;
          var chains := RewriteCallable(d.callable.chains, map[], d.callable, None);
          if chains.None? {
            return None;
          }
          StillServed(decls[..i], before, instances);
          var callable := d.callable.(chains := chains.value);
          declarations := declarations + [if d.Node? then Node(callable) else Program(callable)];
        } else if !IsTemplate(d) {
          declarations := declarations + [d];
        }
      }
      assert decls[..|decls|] == decls;
      Complete(ds, instances, generated, done);
      var nodes: seq<Decl> := [];
      for i := 0 to |generated|
        invariant |nodes| == i && forall j :: 0 <= j < i ==> nodes[j] == Node(generated[j])
      {
        nodes := nodes + [Node(generated[i])];
      }
      generated := [];
      assert nodes == Instances(done, Declared(ds));
      return Some(declarations + nodes);
    }

    lemma StillServed(front: seq<Decl>, before: map<Key, string>, now: map<Key, string>)
      requires before.Keys <= now.Keys
      requires forall j :: 0 <= j < |front| && IsRoot(front[j]) ==>
        Served(Declared(ds), before, ChainListRefs(front[j].callable.chains, false), map[])
      ensures forall j :: 0 <= j < |front| && IsRoot(front[j]) ==>
        Served(Declared(ds), now, ChainListRefs(front[j].callable.chains, false), map[])
    {}
  }
}
