/** Which static arguments are left after expansion, and when two instances get one name. */
module ExpandedRefs {
  import opened Ast
  import opened Monomorphizing
  import opened Expansion
  import Tokens

  // ---- References of rewritten trees ----

  lemma {:induction false} EndpointRefsAfter(e: Endpoint, b: Bindings)
    ensures Bare(EndpointRefs(RewriteEndpoint(e, b), false))
    ensures EndpointRefs(RewriteEndpoint(e, b), true) == EndpointRefs(e, true)
    decreases e, 0
  {
    match e
    case Tuple(items) => ItemRefsAfter(items, b);
    case Seq(items) => ItemRefsAfter(items, b);
    case Struct(_, fields) => FieldRefsAfter(fields, b);
    case Eval(source, stages) =>
      EndpointRefsAfter(source, b);
      StageListRefsAfter(stages, b);
    case _ =>
  }

  lemma {:induction false} ItemRefsAfter(items: seq<Endpoint>, b: Bindings)
    ensures Bare(ItemRefs(RewriteItems(items, b), false))
    ensures ItemRefs(RewriteItems(items, b), true) == ItemRefs(items, true)
    decreases items, 0
  {
    if items != [] {
      EndpointRefsAfter(items[0], b);
      ItemRefsAfter(items[1..], b);
    }
  }

  lemma {:induction false} FieldRefsAfter(fields: seq<Field>, b: Bindings)
    ensures Bare(FieldRefs(RewriteFields(fields, b), false))
    ensures FieldRefs(RewriteFields(fields, b), true) == FieldRefs(fields, true)
    decreases fields, 0
  {
    if fields != [] {
      EndpointRefsAfter(fields[0].value, b);
      FieldRefsAfter(fields[1..], b);
    }
  }

  lemma {:induction false} StageListRefsAfter(stages: seq<Stage>, b: Bindings)
    ensures Bare(StageListRefs(RewriteStages(stages, b), false))
    ensures StageListRefs(RewriteStages(stages, b), true) == StageListRefs(stages, true)
    decreases stages, 0
  {
    if stages != [] {
      StageRefsAfter(stages[0], b);
      StageListRefsAfter(stages[1..], b);
    }
  }

  lemma {:induction false} StageRefsAfter(s: Stage, b: Bindings)
    ensures Bare(StageRefs(RewriteStage(s, b), false))
    ensures StageRefs(RewriteStage(s, b), true) == StageRefs(s, true)
    decreases s, 0
  {
    match s
    case Value(e) => EndpointRefsAfter(e, b);
    case Match(arms) => ArmListRefsAfter(arms, b);
    case _ =>
  }

  lemma {:induction false} ArmListRefsAfter(arms: seq<MatchArm>, b: Bindings)
    ensures Bare(ArmListRefs(RewriteArms(arms, b), false))
    ensures ArmListRefs(RewriteArms(arms, b), true) == ArmListRefs(arms, true)
    decreases arms, 0
  {
    if arms != [] {
      ArmRefsAfter(arms[0], b);
      ArmListRefsAfter(arms[1..], b);
    }
  }

  lemma {:induction false} ArmRefsAfter(arm: MatchArm, b: Bindings)
    ensures Bare(ArmRefs(RewriteArm(arm, b), false))
    ensures ArmRefs(RewriteArm(arm, b), true) == ArmRefs(arm, true)
    decreases arm, 0
  {
    GuardRefsAfter(arm.guard, b);
    TargetRefsAfter(arm.target, b);
  }

  lemma {:induction false} GuardRefsAfter(g: MatchGuard, b: Bindings)
    ensures Bare(GuardRefs(RewriteGuard(g, b), false))
    ensures GuardRefs(RewriteGuard(g, b), true) == GuardRefs(g, true)
    decreases g, 0
  {
    if g.Call? { ItemRefsAfter(g.args, b); }
  }

  lemma {:induction false} TargetRefsAfter(t: MatchTarget, b: Bindings)
    ensures Bare(TargetRefs(RewriteTarget(t, b), false))
    ensures TargetRefs(RewriteTarget(t, b), true) == TargetRefs(t, true)
    decreases t, 0
  {
    if t.ToValue? { EndpointRefsAfter(t.endpoint, b); }
  }

  lemma {:induction false} ChainListRefsAfter(cs: seq<Chain>, b: Bindings)
    ensures Bare(ChainListRefs(RewriteChains(cs, b), false))
    ensures ChainListRefs(RewriteChains(cs, b), true) == ChainListRefs(cs, true)
  {
    if cs != [] {
      EndpointRefsAfter(cs[0].source, b);
      StageListRefsAfter(cs[0].stages, b);
      ChainListRefsAfter(cs[1..], b);
    }
  }

  // ---- What survives expansion ----

  /** No callable of the declarations passes a static argument anywhere. */
  ghost predicate Expanded(ds: seq<Decl>)
  {
    forall d :: d in ds && IsCallable(d) ==>
      Bare(ChainListRefs(d.callable.chains, false)) && Bare(ChainListRefs(d.callable.chains, true))
  }

  /** Identities and counts pass no static argument, in any callable that is kept or instantiated. */
  ghost predicate OperandsAreBare(ds: seq<Decl>)
  {
    forall c, b, owner :: Body(ds, c, b, owner) ==> Bare(ChainListRefs(c.chains, true))
  }

  lemma {:induction false} KeptHas(ds: seq<Decl>)
    ensures forall d :: d in ds && !IsTemplate(d) ==> KeptDecl(d) in Kept(ds)
    ensures forall d' :: d' in Kept(ds) ==> exists d :: d in ds && !IsTemplate(d) && d' == KeptDecl(d)
  {
    if ds != [] {
      var front := ds[..|ds| - 1];
      var d := ds[|ds| - 1];
      KeptHas(front);
      assert ds == front + [d];
      if !IsTemplate(d) { assert Kept(ds)[|Kept(ds)| - 1] == KeptDecl(d); }
    }
  }

  lemma BodyIsDeclared(ds: seq<Decl>, ks: seq<Key>, out: seq<Decl>, c: Callable, b: Bindings, owner: Option<Key>)
    requires IsExpansion(ds, ks, out) && Body(ds, c, b, owner)
    ensures exists d' :: d' in out && IsCallable(d') && d'.callable.chains == RewriteChains(c.chains, b)
  {
    hide Declared, ChainListRefs, RewriteChains, InstanceName, Needed, Instance;
    var lib := Declared(ds);
    if owner.None? {
      KeptHas(ds);
      var d :| d in ds && IsRoot(d) && d.callable == c;
      assert KeptDecl(d) in out;
    } else {
      assert Needed(ds, owner.value);
      var i :| 0 <= i < |ks| && ks[i] == owner.value;
      assert out[|Kept(ds)| + i] == Node(Instance(ks[i], lib));
    }
  }

  lemma DeclaredIsBody(ds: seq<Decl>, ks: seq<Key>, out: seq<Decl>, d': Decl)
    requires IsExpansion(ds, ks, out) && d' in out && IsCallable(d')
    ensures exists c, b, owner :: Body(ds, c, b, owner) && d'.callable.chains == RewriteChains(c.chains, b)
  {
    hide Declared, ChainListRefs, RewriteChains, InstanceName, Needed, Instance, Refused;
    var lib := Declared(ds);
    if d' in Kept(ds) {
      KeptHas(ds);
      var d :| d in ds && !IsTemplate(d) && d' == KeptDecl(d);
      assert Body(ds, d.callable, map[], None);
    } else {
      var i :| 0 <= i < |ks| && Instances(ks, lib)[i] == d';
      assert ks[i] in ks && WellKeyed(ks[i], lib);
      assert Body(ds, lib.templates[ks[i].template], KeyBindings(ks[i], lib), Some(ks[i]));
    }
  }

  /** Expansion removes every static argument exactly when identities and repeat counts have none. */
  lemma StaticArgumentsAreGoneIff(ds: seq<Decl>, ks: seq<Key>, out: seq<Decl>)
    requires IsExpansion(ds, ks, out)
    ensures Expanded(out) <==> OperandsAreBare(ds)
  {
    hide Declared, IsExpansion, Body, ChainListRefs, RewriteChains, Bare;
    forall c, b, owner | Expanded(out) && Body(ds, c, b, owner)
      ensures Bare(ChainListRefs(c.chains, true))
    {
      BodyIsDeclared(ds, ks, out, c, b, owner);
      ChainListRefsAfter(c.chains, b);
    }
    if OperandsAreBare(ds) {
      forall d' | d' in out && IsCallable(d')
        ensures Bare(ChainListRefs(d'.callable.chains, false)) && Bare(ChainListRefs(d'.callable.chains, true))
      {
        DeclaredIsBody(ds, ks, out, d');
        var c, b, owner :| Body(ds, c, b, owner) && d'.callable.chains == RewriteChains(c.chains, b);
        ChainListRefsAfter(c.chains, b);
      }
    }
  }

  // ---- Names of instances ----

  predicate IsPlainWord(s: string) { s != "" && forall i :: 0 <= i < |s| ==> Tokens.IsWordChar(s[i]) && s[i] != '_' }

  /** Undotted names without an underscore. */
  predicate PlainKey(k: Key)
  {
    && |k.template| == 1 && IsPlainWord(k.template[0])
    && forall i :: 0 <= i < |k.args| ==> |k.args[i]| == 1 && IsPlainWord(k.args[i][0])
  }

  lemma {:induction false} SanitizeKeeps(s: string)
    requires forall i :: 0 <= i < |s| ==> Tokens.IsWordChar(s[i])
    ensures Sanitize(s) == s
  {
    if s != "" { SanitizeKeeps(s[1..]); }
  }

  /** Two words are told apart from what follows by the underscore. */
  lemma WordsSplit(w: string, rest: string, w': string, rest': string)
    requires forall i :: 0 <= i < |w| ==> w[i] != '_'
    requires forall i :: 0 <= i < |w'| ==> w'[i] != '_'
    requires rest == "" || rest[0] == '_'
    requires rest' == "" || rest'[0] == '_'
    requires w + rest == w' + rest'
    ensures w == w' && rest == rest'
  {
    var s := w + rest;
    assert forall i :: 0 <= i < |w| ==> s[i] == w[i];
    assert forall i :: 0 <= i < |w'| ==> s[i] == w'[i];
    assert |w| < |s| ==> s[|w|] == rest[0];
    assert |w'| < |s| ==> s[|w'|] == rest'[0];
    assert w == (w + rest)[..|w|] && w' == (w' + rest')[..|w'|];
    assert rest == (w + rest)[|w|..] && rest' == (w' + rest')[|w'|..];
  }

  lemma FirstArgument(args: seq<QName>)
    requires args != [] && |args[0]| == 1 && IsPlainWord(args[0][0])
    ensures ArgsText(args) != "" && ArgsText(args)[1..] == args[0][0] + ArgsText(args[1..])
  {
    SanitizeKeeps(args[0][0]);
    UnderscoreFirst(args[0][0], ArgsText(args[1..]));
  }

  lemma UnderscoreFirst(word: string, rest: string)
    ensures ("_" + word + rest)[1..] == word + rest
  {}

  lemma {:induction false} ArgsTextIsInjective(p: seq<QName>, q: seq<QName>)
    requires forall i :: 0 <= i < |p| ==> |p[i]| == 1 && IsPlainWord(p[i][0])
    requires forall i :: 0 <= i < |q| ==> |q[i]| == 1 && IsPlainWord(q[i][0])
    requires ArgsText(p) == ArgsText(q)
    ensures p == q
  {
    if p != [] && q != [] {
      FirstArgument(p);
      FirstArgument(q);
      hide ArgsText, IsPlainWord;
      WordsSplit(p[0][0], ArgsText(p[1..]), q[0][0], ArgsText(q[1..]));
      ArgsTextIsInjective(p[1..], q[1..]);
      assert p[0] == [p[0][0]] && q[0] == [q[0][0]];
    }
  }

  /** Instances of underscore-free, undotted names never share a name. */
  lemma PlainNamesDiffer(j: Key, k: Key)
    requires PlainKey(j) && PlainKey(k) && InstanceName(j) == InstanceName(k)
    ensures j == k
  {
    SanitizeKeeps(j.template[0]);
    SanitizeKeeps(k.template[0]);
    var prefix := "__flow_inst_";
    assert InstanceName(j)[|prefix|..] == j.template[0] + ArgsText(j.args);
    assert InstanceName(k)[|prefix|..] == k.template[0] + ArgsText(k.args);
    WordsSplit(j.template[0], ArgsText(j.args), k.template[0], ArgsText(k.args));
    ArgsTextIsInjective(j.args, k.args);
    assert j.template == [j.template[0]] && k.template == [k.template[0]];
  }

  lemma {:induction false} SanitizeJoins(s: string, t: string)
    ensures Sanitize(s + t) == Sanitize(s) + Sanitize(t)
  {
    if s == "" {
      assert s + t == t;
    } else {
      assert (s + t)[1..] == s[1..] + t;
      SanitizeJoins(s[1..], t);
    }
  }

  lemma DotsReadAsUnderscores(s: string, t: string)
    requires IsPlainWord(s) && IsPlainWord(t)
    ensures Sanitize(s + "." + t) == s + "_" + t
    ensures Sanitize(s + "_" + t) == s + "_" + t
  {
    SanitizeKeeps(s);
    SanitizeKeeps(t);
    SanitizeJoins(s + ".", t);
    SanitizeJoins(s, ".");
    SanitizeJoins(s + "_", t);
    SanitizeJoins(s, "_");
    assert Sanitize(".") == "_" && Sanitize("_") == "_";
  }

  /** Otherwise they may: in an argument a dot and an underscore look alike. */
  lemma DottedArgumentsCollide(t: QName, a: string, b: string)
    requires IsPlainWord(a) && IsPlainWord(b)
    ensures Key(t, [[a, b]]) != Key(t, [[a + "_" + b]])
    ensures InstanceName(Key(t, [[a, b]])) == InstanceName(Key(t, [[a + "_" + b]]))
  {
    DotsReadAsUnderscores(a, b);
    var dotted, flat := [[a, b]], [[a + "_" + b]];
    assert DottedText(dotted[0]) == a + "." + b by { assert [a, b][1..] == [b]; }
    assert dotted[1..] == [] && flat[1..] == [];
    assert ArgsText(dotted) == ArgsText(flat);
    assert |dotted[0]| == 2 && |flat[0]| == 1;
  }

  /** And two arguments look like a longer template name and one argument. */
  lemma LongerTemplatesCollide(t: string, a: string, b: string)
    requires IsPlainWord(t) && IsPlainWord(a) && IsPlainWord(b)
    ensures Key([t], [[a], [b]]) != Key([t + "_" + a], [[b]])
    ensures InstanceName(Key([t], [[a], [b]])) == InstanceName(Key([t + "_" + a], [[b]]))
  {
    SanitizeKeeps(t);
    SanitizeKeeps(a);
    DotsReadAsUnderscores(t, a);
    var two, one: seq<QName> := [[a], [b]], [[b]];
    assert two[1..] == one;
    assert ArgsText(two) == "_" + a + ArgsText(one);
    assert |two| == 2 && |one| == 1;
    assert DottedText([t]) == t && DottedText([t + "_" + a]) == t + "_" + a;
    Regroup("__flow_inst_", t, "_", a, ArgsText(one));
    hide Sanitize, ArgsText, DottedText;
  }

  lemma Regroup(p: string, t: string, u: string, a: string, rest: string)
    ensures p + t + (u + a + rest) == p + (t + u + a) + rest
  {}

  /** Then the expansion declares one name twice, for nodes that stand for different instances. */
  lemma CollisionsDeclareTwice(ds: seq<Decl>, ks: seq<Key>, out: seq<Decl>, i: nat, j: nat)
    requires IsExpansion(ds, ks, out) && i < j < |ks| && InstanceName(ks[i]) == InstanceName(ks[j])
    ensures ks[i] != ks[j]
    ensures exists m, n :: 0 <= m < n < |out| && out[m].Node? && out[n].Node? && out[m].callable.name == out[n].callable.name
  {
    hide Kept, Declared, Needed, Refused, InstanceName, WellKeyed;
    var base := |Kept(ds)|;
    assert out[base + i] == Node(Instance(ks[i], Declared(ds)));
    assert out[base + j] == Node(Instance(ks[j], Declared(ds)));
    assert base + i < base + j;
  }
}
