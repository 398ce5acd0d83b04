/** Which node a static parameter stands for, and which modules are turned down. */
module StaticParameters {
  import opened Ast
  import opened Dataflow
  import opened Monomorphizing

  // ---- Parameters and their nodes ----

  /** Parameter `i` is called `q` and gets the node `a`; of equal names the last one counts. */
  ghost predicate BoundAt(params: seq<NodeParam>, args: seq<QName>, q: QName, a: QName, i: int)
    requires |params| == |args|
  {
    && 0 <= i < |params|
    && q == [params[i].name] && a == args[i]
    && forall j :: i < j < |params| ==> params[j].name != params[i].name
  }

  ghost predicate IsBound(params: seq<NodeParam>, args: seq<QName>, q: QName, a: QName)
    requires |params| == |args|
  {
    exists i :: BoundAt(params, args, q, a, i)
  }

  predicate MapsTo(b: Bindings, q: QName, a: QName) { q in b && b[q] == a }

  /** The parameters are bound in order, each to the argument at its own place. */
  ghost predicate Binds(params: seq<NodeParam>, args: seq<QName>, b: Bindings)
  {
    && |params| == |args|
    && forall q, a :: MapsTo(b, q, a) <==> IsBound(params, args, q, a)
  }

  lemma {:induction false} BoundIff(params: seq<NodeParam>, args: seq<QName>, q: QName, a: QName)
    requires |params| == |args|
    ensures MapsTo(Parameters(params, args), q, a) <==> IsBound(params, args, q, a)
  {
    if params != [] {
      var n := |params| - 1;
      BoundIff(params[..n], args[..n], q, a);
      if q == [params[n].name] {
        assert a == args[n] ==> BoundAt(params, args, q, a, n);
      } else {
        forall i | BoundAt(params, args, q, a, i)
          ensures BoundAt(params[..n], args[..n], q, a, i)
        {}
        forall i | BoundAt(params[..n], args[..n], q, a, i)
          ensures BoundAt(params, args, q, a, i)
        {}
      }
    }
  }

  lemma BindsIff(params: seq<NodeParam>, args: seq<QName>, b: Bindings)
    ensures Binds(params, args, b) <==> |params| == |args| && b == Parameters(params, args)
  {
    if |params| == |args| {
      var p := Parameters(params, args);
      forall q, a
        ensures MapsTo(p, q, a) <==> IsBound(params, args, q, a)
      {
        BoundIff(params, args, q, a);
      }
      if Binds(params, args, b) {
        forall q | q in b
          ensures q in p && p[q] == b[q]
        {
          assert MapsTo(b, q, b[q]);
          assert MapsTo(p, q, b[q]);
        }
        forall q | q in p
          ensures q in b
        {
          assert MapsTo(p, q, p[q]);
          assert MapsTo(b, q, p[q]);
        }
      }
    }
  }

  // ---- Declarations ----

  predicate IsNode(d: Decl, generic: bool, q: QName)
  {
    d.Node? && (d.callable.nodeParams != [] <==> generic) && [d.callable.name] == q
  }

  /** Declaration `i` is the last one of its kind with the name. */
  ghost predicate DeclaredAt(ds: seq<Decl>, generic: bool, q: QName, c: Callable, i: int)
  {
    && 0 <= i < |ds|
    && IsNode(ds[i], generic, q) && ds[i].callable == c
    && forall j :: i < j < |ds| ==> !IsNode(ds[j], generic, q)
  }

  ghost predicate Declares(ds: seq<Decl>, generic: bool, q: QName, c: Callable)
  {
    exists i :: DeclaredAt(ds, generic, q, c, i)
  }

  /** Templates and other nodes are looked up apart, and a later declaration hides an earlier one. */
  lemma {:induction false} DeclaresIff(ds: seq<Decl>, generic: bool, q: QName, c: Callable)
    ensures
      var found := if generic then Declared(ds).templates else Declared(ds).nodes;
      (q in found && found[q] == c) <==> Declares(ds, generic, q, c)
  {
    if ds != [] {
      var n := |ds| - 1;
      DeclaresIff(ds[..n], generic, q, c);
      if IsNode(ds[n], generic, q) {
        assert ds[n].callable == c ==> DeclaredAt(ds, generic, q, c, n);
      } else {
        forall i | DeclaredAt(ds, generic, q, c, i)
          ensures DeclaredAt(ds[..n], generic, q, c, i)
        {}
        forall i | DeclaredAt(ds[..n], generic, q, c, i)
          ensures DeclaredAt(ds, generic, q, c, i)
        {}
      }
    }
  }

  // ---- What is turned down ----

  /** Under the parameters `b`, the reference runs the template `c` under the parameters `b'`. */
  ghost predicate Passes(ds: seq<Decl>, r: NodeRef, b: Bindings, c: Callable, b': Bindings)
  {
    r.base !in b && r.args != [] && Declares(ds, true, r.base, c) && Binds(c.nodeParams, Actuals(r.args, b), b')
  }

  /** A callable without static parameters leads to `c` under the parameters `b` by way of `n` templates. */
  ghost predicate Reached(ds: seq<Decl>, c: Callable, b: Bindings, n: nat)
    decreases n
  {
    if n == 0 then
      b == map[] && exists d :: d in ds && (d.Program? || (d.Node? && d.callable.nodeParams == [])) && d.callable == c
    else
      exists c0, b0, r ::
        Reached(ds, c0, b0, n - 1) && r in ChainListRefs(c0.chains, false) && Passes(ds, r, b0, c, b)
  }

  /** Arguments for a parameter, for no template, or for a template with another number of parameters. */
  ghost predicate TurnedDown(ds: seq<Decl>, r: NodeRef, b: Bindings)
  {
    r.args != [] && (r.base in b || forall c :: Declares(ds, true, r.base, c) ==> |c.nodeParams| != |r.args|)
  }

  /** The callable is the template of a key that is needed after `n` instances. */
  ghost predicate IsKeyed(ds: seq<Decl>, c: Callable, b: Bindings, k: Key, n: nat)
  {
    var lib := Declared(ds);
    NeededAfter(ds, k, n) && WellKeyed(k, lib) && c == lib.templates[k.template] && b == KeyBindings(k, lib)
  }

  lemma PassesIff(ds: seq<Decl>, r: NodeRef, b: Bindings, c: Callable, b': Bindings)
    ensures
      var lib := Declared(ds);
      Passes(ds, r, b, c, b') <==>
      && Wanted(r, b).Some?
      && var k := Wanted(r, b).value;
         WellKeyed(k, lib) && c == lib.templates[k.template] && b' == KeyBindings(k, lib)
  {
    hide Declared, Declares, Binds, Parameters;
    if r.base !in b && r.args != [] {
      DeclaresIff(ds, true, r.base, c);
      BindsIff(c.nodeParams, Actuals(r.args, b), b');
    }
  }

  lemma TurnedDownIff(ds: seq<Decl>, r: NodeRef, b: Bindings)
    ensures TurnedDown(ds, r, b) <==> Misused(r, b, Declared(ds))
  {
    hide Declared, Declares;
    var lib := Declared(ds);
    forall c
      ensures Declares(ds, true, r.base, c) <==> r.base in lib.templates && lib.templates[r.base] == c
    {
      DeclaresIff(ds, true, r.base, c);
    }
  }

  lemma {:induction false} ReachedIsKeyed(ds: seq<Decl>, c: Callable, b: Bindings, n: nat)
    requires Reached(ds, c, b, n + 1)
    ensures exists k :: IsKeyed(ds, c, b, k, n)
    decreases n
  {
    hide Declared, Passes, WellKeyed, Wanted, KeyBindings, ChainListRefs;
    var c0, b0, r :|
      Reached(ds, c0, b0, n) && r in ChainListRefs(c0.chains, false) && Passes(ds, r, b0, c, b);
    PassesIff(ds, r, b0, c, b);
    var k := Wanted(r, b0).value;
    if n > 0 {
      ReachedIsKeyed(ds, c0, b0, n - 1);
      var p :| IsKeyed(ds, c0, b0, p, n - 1);
    }
    assert IsKeyed(ds, c, b, k, n);
  }

  lemma {:induction false} KeyedIsReached(ds: seq<Decl>, c: Callable, b: Bindings, k: Key, n: nat)
    requires IsKeyed(ds, c, b, k, n)
    ensures Reached(ds, c, b, n + 1)
    decreases n
  {
    hide Declared, Passes, WellKeyed, Wanted, KeyBindings, ChainListRefs;
    var lib := Declared(ds);
    if n == 0 {
      var d, r :| d in ds && IsRoot(d) && r in ChainListRefs(d.callable.chains, false) && Wanted(r, map[]) == Some(k);
      PassesIff(ds, r, map[], c, b);
      assert Reached(ds, d.callable, map[], 0);
    } else {
      var p, r :|
        && NeededAfter(ds, p, n - 1)
        && WellKeyed(p, lib)
        && r in ChainListRefs(lib.templates[p.template].chains, false)
        && Wanted(r, KeyBindings(p, lib)) == Some(k);
      KeyedIsReached(ds, lib.templates[p.template], KeyBindings(p, lib), p, n - 1);
      PassesIff(ds, r, KeyBindings(p, lib), c, b);
    }
  }

  lemma BodyIsReached(ds: seq<Decl>, c: Callable, b: Bindings, owner: Option<Key>)
    requires Body(ds, c, b, owner)
    ensures exists n: nat :: Reached(ds, c, b, n)
  {
    hide Declared, WellKeyed, KeyBindings, NeededAfter;
    if owner.None? {
      assert Reached(ds, c, b, 0);
    } else {
      var n: nat :| NeededAfter(ds, owner.value, n);
      KeyedIsReached(ds, c, b, owner.value, n);
    }
  }

  lemma ReachedIsBody(ds: seq<Decl>, c: Callable, b: Bindings, n: nat)
    requires Reached(ds, c, b, n)
    ensures exists owner :: Body(ds, c, b, owner)
  {
    hide Declared, WellKeyed, KeyBindings, NeededAfter;
    if n == 0 {
      assert Body(ds, c, b, None);
    } else {
      ReachedIsKeyed(ds, c, b, n - 1);
      var k :| IsKeyed(ds, c, b, k, n - 1);
      assert Body(ds, c, b, Some(k));
    }
  }

  /** Expansion fails for parameters of a program and for arguments that fit no template, and for nothing else. */
  lemma RefusedIff(ds: seq<Decl>)
    ensures Refused(ds) <==>
      || (exists d :: d in ds && d.Program? && d.callable.nodeParams != [])
      || (exists c, b, n: nat, r ::
            Reached(ds, c, b, n) && r in ChainListRefs(c.chains, false) && TurnedDown(ds, r, b))
  {
    hide Body, Reached, ChainListRefs, TurnedDown, Misused, Declared;
    if c, b, owner, r :|
      Body(ds, c, b, owner) && r in ChainListRefs(c.chains, false) && Misused(r, b, Declared(ds))
    {
      BodyIsReached(ds, c, b, owner);
      TurnedDownIff(ds, r, b);
      var n: nat :| Reached(ds, c, b, n);
      assert Reached(ds, c, b, n) && r in ChainListRefs(c.chains, false) && TurnedDown(ds, r, b);
    }
    if c, b, n: nat, r :| Reached(ds, c, b, n) && r in ChainListRefs(c.chains, false) && TurnedDown(ds, r, b) {
      ReachedIsBody(ds, c, b, n);
      TurnedDownIff(ds, r, b);
      var owner :| Body(ds, c, b, owner);
      assert Body(ds, c, b, owner) && r in ChainListRefs(c.chains, false) && Misused(r, b, Declared(ds));
    }
  }

  // ---- What stays ----

  lemma {:induction false} KeptJoins(a: seq<Decl>, b: seq<Decl>)
    ensures Kept(a + b) == Kept(a) + Kept(b)
    decreases |b|
  {
    hide KeptDecl, IsTemplate;
    if b == [] {
      assert a + b == a;
    } else {
      var n := |b| - 1;
      assert (a + b)[..|a + b| - 1] == a + b[..n] && (a + b)[|a + b| - 1] == b[n];
      KeptJoins(a, b[..n]);
    }
  }

  /**
   * Templates are left out, and every other declaration stays at its place: programs and nodes with their references
   * rewritten and nothing else changed, all others as they are.
   */
  lemma KeptInPlace(a: seq<Decl>, d: Decl, b: seq<Decl>)
    ensures d.Node? && d.callable.nodeParams != [] ==> Kept(a + [d] + b) == Kept(a) + Kept(b)
    ensures !d.Node? && !d.Program? ==> Kept(a + [d] + b) == Kept(a) + [d] + Kept(b)
    ensures d.Program? ==>
              Kept(a + [d] + b)
              == Kept(a) + [Program(d.callable.(chains := RewriteChains(d.callable.chains, map[])))] + Kept(b)
    ensures d.Node? && d.callable.nodeParams == [] ==>
              Kept(a + [d] + b) == Kept(a) + [Node(d.callable.(chains := RewriteChains(d.callable.chains, map[])))] + Kept(b)
  {
    hide RewriteChains;
    KeptJoins(a + [d], b);
    KeptJoins(a, [d]);
    assert [d][..0] == [] && Kept([]) == [];
    assert Kept([d]) == if IsTemplate(d) then [] else [KeptDecl(d)];
    hide Kept;
  }
}
