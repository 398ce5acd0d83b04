/** Effect inference, src/typecheck.rs:1357-1411: a fixpoint over the call graph, updated in place. */
module Effects {
  import opened Ast
  import Monomorphizing

  datatype Effect = PureEffect | IoEffect

  type Symbols = map<NodeRef, Effect>

  function NameOf(c: Callable): NodeRef { NodeRef([c.name], []) }

  // ---- The names a callable is looked up by ----

  function ArmsNames(arms: seq<MatchArm>): set<NodeRef>
  {
    set i | 0 <= i < |arms| && arms[i].target.ToNode? :: arms[i].target.node
  }

  /** Inline evaluations, guards and values are not looked into. */
  function StageNames(s: Stage): set<NodeRef>
  {
    match s
    case Value(e) => if e.Name? then {e.node} else {}
    case Map(r) => {r}
    case Filter(r) => {r}
    case FaultMap(r, _, _) => {r}
    case Repeat(_, r) => {r}
    case Reduce(r, _) => {r}
    case Scan(r, _) => {r}
    case Match(arms) => ArmsNames(arms)
    case Bind(_) => {}
    case FieldOf(_) => {}
  }

  predicate StageUsesIo(s: Stage, symbols: Symbols)
  {
    exists r :: r in StageNames(s) && r in symbols && symbols[r] == IoEffect
  }

  predicate UsesIo(c: Callable, symbols: Symbols)
  {
    exists i, j :: 0 <= i < |c.chains| && 0 <= j < |c.chains[i].stages| && StageUsesIo(c.chains[i].stages[j], symbols)
  }

  function LookedUp(c: Callable): set<NodeRef>
  {
    set i, j, r | 0 <= i < |c.chains| && 0 <= j < |c.chains[i].stages| && r in StageNames(c.chains[i].stages[j]) :: r
  }

  lemma UsesIoIff(c: Callable, symbols: Symbols)
    ensures UsesIo(c, symbols) <==> exists r :: r in LookedUp(c) && r in symbols && symbols[r] == IoEffect
  {
    if r :| r in LookedUp(c) && r in symbols && symbols[r] == IoEffect {
      var i, j :| 0 <= i < |c.chains| && 0 <= j < |c.chains[i].stages| && r in StageNames(c.chains[i].stages[j]);
      assert StageUsesIo(c.chains[i].stages[j], symbols);
    }
    if UsesIo(c, symbols) {
      var i, j :| 0 <= i < |c.chains| && 0 <= j < |c.chains[i].stages| && StageUsesIo(c.chains[i].stages[j], symbols);
      var r :| r in StageNames(c.chains[i].stages[j]) && r in symbols && symbols[r] == IoEffect;
      assert r in LookedUp(c);
    }
  }

  // ---- Reaching an effect ----

  predicate HasCallable(d: Decl) { d.Node? || d.Program? }

  /** At most `n` calls lead from the name to a symbol that was declared with effects. */
  ghost predicate ReachesIn(ds: seq<Decl>, symbols: Symbols, r: NodeRef, n: nat)
    decreases n
  {
    || (r in symbols && symbols[r] == IoEffect)
    || (n > 0 && r in symbols && exists d, m ::
          d in ds && HasCallable(d) && NameOf(d.callable) == r && m in LookedUp(d.callable)
          && ReachesIn(ds, symbols, m, n - 1))
  }

  ghost predicate Reaches(ds: seq<Decl>, symbols: Symbols, r: NodeRef) { exists n: nat :: ReachesIn(ds, symbols, r, n) }

  /** Nothing more to find out. */
  ghost predicate Settled(d: Decl, symbols: Symbols)
  {
    HasCallable(d) && NameOf(d.callable) in symbols && symbols[NameOf(d.callable)] != IoEffect ==>
      !UsesIo(d.callable, symbols)
  }

  lemma {:induction false} SettledReaches(ds: seq<Decl>, start: Symbols, symbols: Symbols, r: NodeRef, n: nat)
    requires start.Keys == symbols.Keys && forall m :: m in start && start[m] == IoEffect ==> symbols[m] == IoEffect
    requires forall d :: d in ds ==> Settled(d, symbols)
    requires ReachesIn(ds, start, r, n)
    ensures r in symbols && symbols[r] == IoEffect
    decreases n
  {
    if !(r in start && start[r] == IoEffect) {
      var d, m :| d in ds && HasCallable(d) && NameOf(d.callable) == r && m in LookedUp(d.callable)
        && ReachesIn(ds, start, m, n - 1);
      SettledReaches(ds, start, symbols, m, n - 1);
      UsesIoIff(d.callable, symbols);
      assert Settled(d, symbols);
    }
  }

  lemma OneMoreReaches(ds: seq<Decl>, start: Symbols, symbols: Symbols, d: Decl)
    requires start.Keys == symbols.Keys
    requires forall m :: m in symbols && symbols[m] == IoEffect ==> Reaches(ds, start, m)
    requires d in ds && HasCallable(d) && NameOf(d.callable) in symbols && UsesIo(d.callable, symbols)
    ensures Reaches(ds, start, NameOf(d.callable))
  {
    UsesIoIff(d.callable, symbols);
    var m :| m in LookedUp(d.callable) && m in symbols && symbols[m] == IoEffect;
    var n: nat :| ReachesIn(ds, start, m, n);
    assert ReachesIn(ds, start, NameOf(d.callable), n + 1);
  }

  // ---- The loop ----

  /** The callables that have no effect yet. */
  function Pending(ds: seq<Decl>, symbols: Symbols): set<NodeRef>
  {
    set d | d in ds && HasCallable(d) && NameOf(d.callable) in symbols && symbols[NameOf(d.callable)] != IoEffect
      :: NameOf(d.callable)
  }

  class Checker {
    const declarations: seq<Decl>
    var symbols: Symbols

    constructor (declarations: seq<Decl>, symbols: Symbols)
      ensures this.declarations == declarations && this.symbols == symbols
    {
      this.declarations := declarations;
      this.symbols := symbols;
    }

    /** Ends after at most one round more than there are callables without effect. */
    method InferEffects() returns (rounds: nat)
      modifies this
      ensures symbols.Keys == old(symbols).Keys
      ensures forall r :: r in symbols ==> (symbols[r] == IoEffect <==> Reaches(declarations, old(symbols), r))
      ensures rounds <= |Pending(declarations, old(symbols))| + 1
    {
      ghost var start := symbols;
      assert forall r :: r in start && start[r] == IoEffect ==> ReachesIn(declarations, start, r, 0);
      rounds := 0;
      var changed := true;
      while changed
        invariant symbols.Keys == start.Keys
        invariant forall r :: r in start && start[r] == IoEffect ==> symbols[r] == IoEffect
        invariant forall r :: r in symbols && symbols[r] == IoEffect ==> Reaches(declarations, start, r)
        invariant changed ==> rounds + |Pending(declarations, symbols)| <= |Pending(declarations, start)|
        invariant !changed ==> rounds <= |Pending(declarations, start)| + 1
        invariant !changed ==> forall d :: d in declarations ==> Settled(d, symbols)
        decreases changed, |Pending(declarations, symbols)|
      {
        changed := Round(start);
        rounds := rounds + 1;
      }
      forall r | r in symbols && Reaches(declarations, start, r)
        ensures symbols[r] == IoEffect
      {
        var n: nat :| ReachesIn(declarations, start, r, n);
        SettledReaches(declarations, start, symbols, r, n);
      }
    }

    /** One round; what it finds out is visible to the callables after. */
    method Round(ghost start: Symbols) returns (changed: bool)
      requires symbols.Keys == start.Keys
      requires forall r :: r in start && start[r] == IoEffect ==> symbols[r] == IoEffect
      requires forall r :: r in symbols && symbols[r] == IoEffect ==> Reaches(declarations, start, r)
      modifies this
      ensures symbols.Keys == start.Keys
      ensures forall r :: r in old(symbols) && old(symbols)[r] == IoEffect ==> symbols[r] == IoEffect
      ensures forall r :: r in symbols && symbols[r] == IoEffect ==> Reaches(declarations, start, r)
      ensures Pending(declarations, symbols) <= Pending(declarations, old(symbols))
      ensures changed ==> |Pending(declarations, symbols)| < |Pending(declarations, old(symbols))|
      ensures !changed ==> symbols == old(symbols) && forall d :: d in declarations ==> Settled(d, symbols)
    {
      hide ReachesIn, Reaches, UsesIo;
      changed := false;
      ghost var found: set<NodeRef> := {};
      for i := 0 to |declarations|
        invariant symbols.Keys == start.Keys
        invariant forall r :: r in old(symbols) && old(symbols)[r] == IoEffect ==> symbols[r] == IoEffect
        invariant forall r :: r in symbols && symbols[r] == IoEffect ==> Reaches(declarations, start, r)
        invariant forall r :: r in found ==> r in Pending(declarations, old(symbols)) && symbols[r] == IoEffect
        invariant changed <==> found != {}
        invariant !changed ==> symbols == old(symbols) && forall j :: 0 <= j < i ==> Settled(declarations[j], symbols)
      {
        var d := declarations[i];
        if HasCallable(d) {
          var name := NameOf(d.callable);
          if !(name in symbols && symbols[name] == IoEffect) && UsesIo(d.callable, symbols) && name in symbols {
            OneMoreReaches(declarations, start, symbols, d);
            assert name in Pending(declarations, old(symbols));
            symbols := symbols[name := IoEffect];
            changed := true;
            found := found + {name};
          }
        }
      }
      PendingShrinks(declarations, old(symbols), symbols, found);
    }
  }

  lemma PendingShrinks(ds: seq<Decl>, before: Symbols, after: Symbols, found: set<NodeRef>)
    requires before.Keys == after.Keys
    requires forall r :: r in before && before[r] == IoEffect ==> after[r] == IoEffect
    requires forall r :: r in found ==> r in Pending(ds, before) && after[r] == IoEffect
    ensures Pending(ds, after) <= Pending(ds, before)
    ensures found != {} ==> |Pending(ds, after)| < |Pending(ds, before)|
  {
    if found != {} {
      var r :| r in found;
      assert r !in Pending(ds, after);
      SmallerSet(Pending(ds, after), Pending(ds, before), r);
    }
  }

  lemma SmallerSet(a: set<NodeRef>, b: set<NodeRef>, r: NodeRef)
    requires a <= b && r in b && r !in a
    ensures |a| < |b|
  {
    assert b == a + (b - a);
    assert r in b - a;
  }

  // ---- What is not looked into ----

  /** Every name a callable refers to. */
  function AllNames(c: Callable): set<NodeRef>
  {
    Monomorphizing.ChainListRefs(c.chains, false) + Monomorphizing.ChainListRefs(c.chains, true)
  }

  /** As `ReachesIn`, through every name. */
  ghost predicate PerformsIn(ds: seq<Decl>, symbols: Symbols, r: NodeRef, n: nat)
    decreases n
  {
    || (r in symbols && symbols[r] == IoEffect)
    || (n > 0 && r in symbols && exists d, m ::
          d in ds && HasCallable(d) && NameOf(d.callable) == r && m in AllNames(d.callable)
          && PerformsIn(ds, symbols, m, n - 1))
  }

  ghost predicate Performs(ds: seq<Decl>, symbols: Symbols, r: NodeRef) { exists n: nat :: PerformsIn(ds, symbols, r, n) }

  lemma {:induction false} InStages(stages: seq<Stage>, r: NodeRef, skipped: bool)
    ensures
      r in Monomorphizing.StageListRefs(stages, skipped)
      <==> exists j :: 0 <= j < |stages| && r in Monomorphizing.StageRefs(stages[j], skipped)
  {
    if stages != [] {
      InStages(stages[1..], r, skipped);
      hide Monomorphizing.StageRefs;
      if j :| 0 <= j < |stages[1..]| && r in Monomorphizing.StageRefs(stages[1..][j], skipped) {
        assert r in Monomorphizing.StageRefs(stages[j + 1], skipped);
      }
      if j :| 0 < j < |stages| && r in Monomorphizing.StageRefs(stages[j], skipped) { assert stages[1..][j - 1] == stages[j]; }
    }
  }

  lemma {:induction false} InArms(arms: seq<MatchArm>, r: NodeRef, skipped: bool)
    ensures
      r in Monomorphizing.ArmListRefs(arms, skipped)
      <==> exists j :: 0 <= j < |arms| && r in Monomorphizing.ArmRefs(arms[j], skipped)
  {
    if arms != [] {
      InArms(arms[1..], r, skipped);
      hide Monomorphizing.ArmRefs;
      if j :| 0 <= j < |arms[1..]| && r in Monomorphizing.ArmRefs(arms[1..][j], skipped) {
        assert r in Monomorphizing.ArmRefs(arms[j + 1], skipped);
      }
      if j :| 0 < j < |arms| && r in Monomorphizing.ArmRefs(arms[j], skipped) { assert arms[1..][j - 1] == arms[j]; }
    }
  }

  lemma {:induction false} InChains(cs: seq<Chain>, r: NodeRef, skipped: bool)
    ensures
      r in Monomorphizing.ChainListRefs(cs, skipped)
      <==> exists i :: 0 <= i < |cs| && r in Monomorphizing.ChainRefs(cs[i], skipped)
  {
    if cs != [] {
      InChains(cs[1..], r, skipped);
      hide Monomorphizing.ChainRefs;
      if i :| 0 <= i < |cs[1..]| && r in Monomorphizing.ChainRefs(cs[1..][i], skipped) {
        assert r in Monomorphizing.ChainRefs(cs[i + 1], skipped);
      }
      if i :| 0 < i < |cs| && r in Monomorphizing.ChainRefs(cs[i], skipped) { assert cs[1..][i - 1] == cs[i]; }
    }
  }

  /** A reference of a callable stands in the source or a stage of one of its chains. */
  lemma InCallable(c: Callable, r: NodeRef)
    ensures
      r in AllNames(c) <==>
      exists i :: 0 <= i < |c.chains| &&
        (r in EndpointNames(c.chains[i].source) || exists j :: 0 <= j < |c.chains[i].stages| && r in RefsOf(c.chains[i].stages[j]))
  {
    InChains(c.chains, r, false);
    InChains(c.chains, r, true);
    forall i | 0 <= i < |c.chains|
      ensures
        (r in Monomorphizing.ChainRefs(c.chains[i], false) || r in Monomorphizing.ChainRefs(c.chains[i], true)) <==>
        (r in EndpointNames(c.chains[i].source) || exists j :: 0 <= j < |c.chains[i].stages| && r in RefsOf(c.chains[i].stages[j]))
    {
      InStages(c.chains[i].stages, r, false);
      InStages(c.chains[i].stages, r, true);
    }
    hide Monomorphizing.ChainRefs, RefsOf, EndpointNames;
  }

  // ---- And what is ----

  function EndpointNames(e: Endpoint): set<NodeRef> { Monomorphizing.EndpointRefs(e, false) + Monomorphizing.EndpointRefs(e, true) }

  /** Every reference of a stage. */
  function RefsOf(s: Stage): set<NodeRef> { Monomorphizing.StageRefs(s, false) + Monomorphizing.StageRefs(s, true) }

  /** The callable without inline evaluations, guards, values and operands. */
  function Outer(c: Callable): Callable
  {
    c.(chains := seq(|c.chains|, i requires 0 <= i < |c.chains| => Chain(Unit, OuterStages(c.chains[i].stages))))
  }

  function OuterStages(stages: seq<Stage>): seq<Stage>
  {
    seq(|stages|, j requires 0 <= j < |stages| => OuterStage(stages[j]))
  }

  function OuterStage(s: Stage): Stage
  {
    match s
    case Value(e) => if e.Name? then s else Value(Unit)
    case Repeat(_, r) => Repeat(Unit, r)
    case Reduce(r, _) => Reduce(r, Unit)
    case Scan(r, _) => Scan(r, Unit)
    case Match(arms) => Match(seq(|arms|, i requires 0 <= i < |arms| => OuterArm(arms[i])))
    case _ => s
  }

  function OuterArm(arm: MatchArm): MatchArm
  {
    MatchArm(Fallback, if arm.target.ToNode? then arm.target else ToValue(Unit))
  }

  lemma StageNamesAre(s: Stage)
    ensures StageNames(s) == RefsOf(OuterStage(s)) && StageNames(s) <= RefsOf(s)
  {
    NoNames();
    var outer := OuterStage(s);
    match s
    case Match(arms) => MatchNamesAre(arms);
    case Value(e) =>
      if e.Name? {
        assert Monomorphizing.EndpointRefs(e, false) == {e.node} && Monomorphizing.EndpointRefs(e, true) == {};
      } else {
        assert RefsOf(Value(Unit)) == {};
      }
    case Repeat(_, r) => assert RefsOf(Repeat(Unit, r)) == {r};
    case Reduce(r, _) => assert RefsOf(Reduce(r, Unit)) == {r};
    case Scan(r, _) => assert RefsOf(Scan(r, Unit)) == {r};
    case _ =>
  }

  lemma OuterArmNames(arm: MatchArm)
    ensures ArmNames(OuterArm(arm)) == if arm.target.ToNode? then {arm.target.node} else {}
    ensures ArmNames(OuterArm(arm)) <= ArmNames(arm)
    ensures arm.guard.Fallback? && (arm.target.ToValue? ==> EndpointNames(arm.target.endpoint) == {}) ==>
              ArmNames(OuterArm(arm)) == ArmNames(arm)
  {
    var outer := OuterArm(arm);
    NoNames();
    if arm.target.ToValue? { NothingIn(arm.target.endpoint); }
    assert Monomorphizing.GuardRefs(Fallback, false) == {} && Monomorphizing.GuardRefs(Fallback, true) == {};
    assert Monomorphizing.TargetRefs(outer.target, false) == if arm.target.ToNode? then {arm.target.node} else {};
    assert Monomorphizing.TargetRefs(outer.target, true) == {};
    assert Monomorphizing.GuardRefs(Fallback, false) + Monomorphizing.TargetRefs(outer.target, false)
           == Monomorphizing.ArmRefs(outer, false);
    if arm.guard.Fallback? && (arm.target.ToValue? ==> EndpointNames(arm.target.endpoint) == {}) {
      assert Monomorphizing.TargetRefs(arm.target, false) == Monomorphizing.TargetRefs(outer.target, false);
      assert Monomorphizing.TargetRefs(arm.target, true) == Monomorphizing.TargetRefs(outer.target, true);
    }
  }

  function ArmNames(arm: MatchArm): set<NodeRef> { Monomorphizing.ArmRefs(arm, false) + Monomorphizing.ArmRefs(arm, true) }

  lemma InMatch(arms: seq<MatchArm>, r: NodeRef)
    ensures r in RefsOf(Match(arms)) <==> exists i :: 0 <= i < |arms| && r in ArmNames(arms[i])
  {
    InArms(arms, r, false);
    InArms(arms, r, true);
    hide Monomorphizing.ArmRefs;
  }

  lemma MatchNamesAre(arms: seq<MatchArm>)
    ensures ArmsNames(arms) == RefsOf(OuterStage(Match(arms))) && ArmsNames(arms) <= RefsOf(Match(arms))
  {
    var outer := OuterStage(Match(arms)).arms;
    forall r ensures (r in ArmsNames(arms) <==> r in RefsOf(Match(outer))) && (r in ArmsNames(arms) ==> r in RefsOf(Match(arms))) {
      InMatch(outer, r);
      InMatch(arms, r);
      forall i | 0 <= i < |arms|
        ensures r in ArmNames(outer[i]) <==> arms[i].target.ToNode? && arms[i].target.node == r
        ensures r in ArmNames(outer[i]) ==> r in ArmNames(arms[i])
      {
        assert outer[i] == OuterArm(arms[i]);
        OuterArmNames(arms[i]);
      }
      hide ArmNames, RefsOf;
      if r in ArmsNames(arms) {
        var i :| 0 <= i < |arms| && arms[i].target.ToNode? && arms[i].target.node == r;
        assert r in ArmNames(outer[i]);
      }
    }
  }

  /** Exactly the references outside of inline evaluations, guards, values and operands are looked up. */
  lemma LookedUpIs(c: Callable)
    ensures LookedUp(c) == AllNames(Outer(c))
  {
    var outer := Outer(c);
    forall r ensures r in LookedUp(c) <==> r in AllNames(outer) {
      InCallable(outer, r);
      hide AllNames, RefsOf, StageNames, OuterStage;
      forall i, j | 0 <= i < |c.chains| && 0 <= j < |c.chains[i].stages|
        ensures r in StageNames(c.chains[i].stages[j]) <==> r in RefsOf(outer.chains[i].stages[j])
      {
        StageNamesAre(c.chains[i].stages[j]);
      }
      if r in LookedUp(c) {
        var i, j :| 0 <= i < |c.chains| && 0 <= j < |c.chains[i].stages| && r in StageNames(c.chains[i].stages[j]);
        assert r in RefsOf(outer.chains[i].stages[j]);
      }
    }
  }

  lemma LookedUpAreNames(c: Callable)
    ensures LookedUp(c) <= AllNames(c)
  {
    forall r | r in LookedUp(c)
      ensures r in AllNames(c)
    {
      var i, j :| 0 <= i < |c.chains| && 0 <= j < |c.chains[i].stages| && r in StageNames(c.chains[i].stages[j]);
      StageNamesAre(c.chains[i].stages[j]);
      InCallable(c, r);
      hide AllNames, RefsOf, StageNames;
    }
  }

  /** The stage refers to nodes by itself only, not in an operand, a guard or a value. */
  predicate IsOpenStage(s: Stage)
  {
    match s
    case Value(e) => e.Name? || EndpointNames(e) == {}
    case Repeat(count, _) => EndpointNames(count) == {}
    case Reduce(_, identity) => EndpointNames(identity) == {}
    case Scan(_, identity) => EndpointNames(identity) == {}
    case Match(arms) =>
      forall i :: 0 <= i < |arms| ==>
        arms[i].guard.Fallback? && (arms[i].target.ToValue? ==> EndpointNames(arms[i].target.endpoint) == {})
    case _ => true
  }

  predicate IsOpen(c: Callable)
  {
    forall i :: 0 <= i < |c.chains| ==>
      && EndpointNames(c.chains[i].source) == {}
      && forall j :: 0 <= j < |c.chains[i].stages| ==> IsOpenStage(c.chains[i].stages[j])
  }

  lemma OpenStageNames(s: Stage)
    requires IsOpenStage(s)
    ensures RefsOf(s) == RefsOf(OuterStage(s))
  {
    NoNames();
    match s
    case Value(e) => NothingIn(e);
    case Repeat(count, _) => NothingIn(count);
    case Reduce(_, identity) => NothingIn(identity);
    case Scan(_, identity) => NothingIn(identity);
    case Match(_) =>
      var outer := OuterStage(s).arms;
      forall r ensures r in RefsOf(s) <==> r in RefsOf(Match(outer)) {
        InMatch(s.arms, r);
        InMatch(outer, r);
        forall i | 0 <= i < |s.arms| ensures ArmNames(s.arms[i]) == ArmNames(outer[i]) {
          assert outer[i] == OuterArm(s.arms[i]);
          OuterArmNames(s.arms[i]);
        }
        hide ArmNames, RefsOf;
      }
    case _ =>
  }

  lemma NothingIn(e: Endpoint)
    ensures EndpointNames(e) == {} ==> Monomorphizing.EndpointRefs(e, false) == {} && Monomorphizing.EndpointRefs(e, true) == {}
    ensures EndpointNames(e) == {} ==> Monomorphizing.OperandRefs(e, false) == {} && Monomorphizing.OperandRefs(e, true) == {}
  {
    assert Monomorphizing.EndpointRefs(e, false) <= EndpointNames(e) && Monomorphizing.EndpointRefs(e, true) <= EndpointNames(e);
  }

  /** Then nothing is missed. */
  lemma AllIsLookedUp(c: Callable)
    requires IsOpen(c)
    ensures LookedUp(c) == AllNames(c)
  {
    LookedUpIs(c);
    var outer := Outer(c);
    forall r ensures r in AllNames(outer) <==> r in AllNames(c) {
      InCallable(outer, r);
      InCallable(c, r);
      hide AllNames, RefsOf, EndpointNames, OuterStage;
      assert EndpointNames(Unit) == {} by { NoNames(); }
      forall i, j | 0 <= i < |c.chains| && 0 <= j < |c.chains[i].stages|
        ensures RefsOf(outer.chains[i].stages[j]) == RefsOf(c.chains[i].stages[j])
      {
        OpenStageNames(c.chains[i].stages[j]);
      }
    }
  }

  lemma NoNames()
    ensures EndpointNames(Unit) == {}
    ensures Monomorphizing.EndpointRefs(Unit, false) == {} && Monomorphizing.EndpointRefs(Unit, true) == {}
    ensures Monomorphizing.OperandRefs(Unit, false) == {} && Monomorphizing.OperandRefs(Unit, true) == {}
  {}

  lemma {:induction false} ReachingPerforms(ds: seq<Decl>, symbols: Symbols, r: NodeRef, n: nat)
    requires ReachesIn(ds, symbols, r, n)
    ensures PerformsIn(ds, symbols, r, n)
    decreases n
  {
    if !(r in symbols && symbols[r] == IoEffect) {
      var d, m :| d in ds && HasCallable(d) && NameOf(d.callable) == r && m in LookedUp(d.callable)
        && ReachesIn(ds, symbols, m, n - 1);
      ReachingPerforms(ds, symbols, m, n - 1);
      LookedUpAreNames(d.callable);
    }
  }

  /** A callable that refers to anything effectful, even inside an inline evaluation, is led to an effect by the lookup. */
  ghost predicate NothingHidden(ds: seq<Decl>, start: Symbols)
  {
    forall d, m ::
      (d in ds && HasCallable(d) && NameOf(d.callable) in start && m in AllNames(d.callable) && Reaches(ds, start, m)) ==>
      Reaches(ds, start, NameOf(d.callable))
  }

  lemma {:induction false} PerformedIsReached(ds: seq<Decl>, start: Symbols, r: NodeRef, n: nat)
    requires NothingHidden(ds, start) && PerformsIn(ds, start, r, n)
    ensures Reaches(ds, start, r)
    decreases n
  {
    if r in start && start[r] == IoEffect {
      assert ReachesIn(ds, start, r, 0);
    } else {
      var d, m :| d in ds && HasCallable(d) && NameOf(d.callable) == r && m in AllNames(d.callable)
        && PerformsIn(ds, start, m, n - 1);
      PerformedIsReached(ds, start, m, n - 1);
    }
  }

  /** The lookup leads to the effects of all calls exactly when nothing effectful is hidden from it. */
  lemma EffectsAreCompleteIff(ds: seq<Decl>, start: Symbols)
    ensures NothingHidden(ds, start) <==> (forall r :: r in start ==> (Reaches(ds, start, r) <==> Performs(ds, start, r)))
  {
    if NothingHidden(ds, start) {
      forall r | r in start
        ensures Reaches(ds, start, r) <==> Performs(ds, start, r)
      {
        if n: nat :| ReachesIn(ds, start, r, n) { ReachingPerforms(ds, start, r, n); }
        if n: nat :| PerformsIn(ds, start, r, n) { PerformedIsReached(ds, start, r, n); }
      }
    } else {
      var d, m :| d in ds && HasCallable(d) && NameOf(d.callable) in start && m in AllNames(d.callable)
        && Reaches(ds, start, m) && !Reaches(ds, start, NameOf(d.callable));
      var n: nat :| ReachesIn(ds, start, m, n);
      ReachingPerforms(ds, start, m, n);
      assert PerformsIn(ds, start, NameOf(d.callable), n + 1);
    }
  }

  /** A callable that calls `log` inside an inline evaluation and nowhere else. */
  function Hiding(x: string, y: string, log: NodeRef): Callable
  {
    Callable(y, false, [], [], [], [Chain(Eval(Str(x), [Value(Name(log))]), [Bind(Drop)])])
  }

  lemma HidingNames(x: string, y: string, log: NodeRef)
    ensures LookedUp(Hiding(x, y, log)) == {} && log in AllNames(Hiding(x, y, log))
  {
    var inner := Eval(Str(x), [Value(Name(log))]);
    var stages: seq<Stage> := [Bind(Drop)];
    var c := Callable(y, false, [], [], [], [Chain(inner, stages)]);
    assert [Value(Name(log))][0] == Value(Name(log));
    assert log in Monomorphizing.StageRefs(Value(Name(log)), false);
    assert log in Monomorphizing.StageListRefs([Value(Name(log))], false);
    assert log in Monomorphizing.EndpointRefs(inner, false);
    assert c.chains[0].source == inner;
  }

  /** It performs the effect of `log` and is never found to: in any table where `log` has one and it has none. */
  lemma InlineEffectsAreMissed(x: string, y: string, log: NodeRef, start: Symbols)
    requires log in start && start[log] == IoEffect
    requires var self := NameOf(Hiding(x, y, log)); self in start && start[self] == PureEffect
    ensures
      var ds := [Node(Hiding(x, y, log))];
      Performs(ds, start, NameOf(ds[0].callable)) && !Reaches(ds, start, NameOf(ds[0].callable))
  {
    var c := Hiding(x, y, log);
    var ds := [Node(c)];
    HidingNames(x, y, log);
    hide Hiding, AllNames, LookedUp;
    assert ds[0] == Node(c) && ds[0].callable == c;
    assert PerformsIn(ds, start, log, 0);
    assert PerformsIn(ds, start, NameOf(c), 1);
    forall n: nat
      ensures !ReachesIn(ds, start, NameOf(c), n)
    {
    }
  }
}
