/** Parsing the tokens written for a well-formed tree gives the tree back. */
module RoundTrip {
  import opened Tokens
  import opened Ast
  import opened Parsing
  import opened WellFormed

  /** What may follow a stage: nothing that would prolong its last name. */
  predicate EndsName(k: List) { Peek(k) != Dot && Peek(k) != Less }

  /** What may follow an inline endpoint or a chain. */
  predicate EndsStages(k: List) { EndsName(k) && Peek(k) != Arrow }

  // ---- Words ----

  lemma StageWordsDiffer()
    ensures "reduce" != "repeat" && "scan" != "repeat" && "scan" != "reduce"
    ensures "match" != "repeat" && "match" != "reduce" && "match" != "scan"
  {
  }

  lemma DeclarationWordsDiffer()
    ensures "node" != "type" && "node" != "struct" && "node" != "import" && "node" != "foreign" && "node" != "extern"
    ensures "extern" != "type" && "extern" != "struct" && "extern" != "import" && "extern" != "foreign"
    ensures "program" != "type" && "program" != "struct" && "program" != "import" && "program" != "foreign"
    ensures "program" != "extern" && "program" != "node"
  {
  }

  // ---- Names ----

  lemma {:induction false} SegmentsParsed(acc: QName, q: QName, k: List)
    requires Peek(k) != Dot
    ensures QIdentTail(acc, TkSegments(q, k)) == Ok(acc + q, k)
    decreases |q|
  {
    if q == [] {
      assert acc + q == acc;
    } else {
      SegmentsParsed(acc + [q[0]], q[1..], k);
      assert acc + [q[0]] + q[1..] == acc + q;
    }
  }

  lemma QNameParsed(q: QName, k: List)
    requires WfQName(q) && Peek(k) != Dot
    ensures QIdent(TkQName(q, k)) == Ok(q, k)
    ensures Peek(TkQName(q, k)) == Ident(q[0])
  {
    SegmentsParsed([q[0]], q[1..], k);
    assert [q[0]] + q[1..] == q;
  }

  lemma {:induction false} ArgsParsed(acc: seq<QName>, args: seq<QName>, k: List)
    requires args != [] && forall i :: 0 <= i < |args| ==> WfQName(args[i])
    ensures RefArgs(acc, TkArgs(args, Cons(Greater, k))) == Ok(acc + args, k)
    decreases |args|
  {
    var k1 := Cons(Greater, k);
    if |args| == 1 {
      QNameParsed(args[0], k1);
      assert acc + [args[0]] == acc + args;
    } else {
      var more := TkArgs(args[1..], k1);
      QNameParsed(args[0], Cons(Comma, more));
      ArgsParsed(acc + [args[0]], args[1..], k);
      assert acc + [args[0]] + args[1..] == acc + args;
      assert Peek(more).Ident? by { QNameFirst(args[1], if |args[1..]| == 1 then k1 else Cons(Comma, TkArgs(args[1..][1..], k1))); }
    }
  }

  lemma QNameFirst(q: QName, k: List)
    requires WfQName(q)
    ensures Peek(TkQName(q, k)) == Ident(q[0])
  {
  }

  lemma RefParsed(r: NodeRef, k: List)
    requires WfRef(r) && EndsName(k)
    ensures ParseNodeRef(TkRef(r, k)) == Ok(r, k)
    ensures Peek(TkRef(r, k)) == Ident(r.base[0])
  {
    if r.args == [] {
      QNameParsed(r.base, k);
    } else {
      var args := TkArgs(r.args, Cons(Greater, k));
      QNameParsed(r.base, Cons(Less, args));
      ArgsParsed([], r.args, k);
      assert [] + r.args == r.args;
      QNameFirst(r.args[0], if |r.args| == 1 then Cons(Greater, k) else Cons(Comma, TkArgs(r.args[1..], Cons(Greater, k))));
    }
  }

  // ---- Binding targets ----

  lemma {:induction false} TargetParsed(t: BindingTarget, k: List)
    requires WfTarget(t)
    ensures ParseTarget(TkTarget(t, k)) == Ok(t, k)
    ensures Peek(TkTarget(t, k)) in {Discard, LParen} || Peek(TkTarget(t, k)).Variable?
    decreases t, 0
  {
    match t
    case Drop =>
    case Bound(_) =>
    case Both(items) =>
      var k1 := Cons(RParen, k);
      var rest := TkTargetTail(items[2..], k1);
      TargetsSplit(items, k1);
      TargetParsed(items[0], Cons(Comma, TkTarget(items[1], rest)));
      TargetParsed(items[1], rest);
      TargetTailParsed([items[0], items[1]], items[2..], k1);
      assert [items[0], items[1]] + items[2..] == items;
  }

  /** The tokens of further items, each with the comma before it. */
  function TkTargetTail(items: seq<BindingTarget>, k: List): List
  {
    if items == [] then k else Cons(Comma, TkTarget(items[0], TkTargetTail(items[1..], k)))
  }

  lemma {:induction false} TargetsAsTail(items: seq<BindingTarget>, k: List)
    requires items != []
    ensures TkTargets(items, k) == TkTarget(items[0], TkTargetTail(items[1..], k))
    decreases |items|
  {
    if |items| > 1 {
      TargetsAsTail(items[1..], k);
    }
  }

  lemma TargetsSplit(items: seq<BindingTarget>, k: List)
    requires |items| >= 2 && WfTargets(items)
    ensures TkTargets(items, k)
         == TkTarget(items[0], Cons(Comma, TkTarget(items[1], TkTargetTail(items[2..], k))))
    ensures WfTarget(items[0]) && WfTarget(items[1]) && WfTargets(items[2..])
  {
    TargetsAsTail(items, k);
    assert items[1..][0] == items[1] && items[1..][1..] == items[2..];
  }

  lemma {:induction false} TargetTailParsed(acc: seq<BindingTarget>, items: seq<BindingTarget>, k: List)
    requires WfTargets(items) && Peek(k) != Comma
    ensures TargetItems(acc, TkTargetTail(items, k)) == Ok(acc + items, k)
    decreases items, 1
  {
    if items == [] {
      assert acc + items == acc;
    } else {
      TargetParsed(items[0], TkTargetTail(items[1..], k));
      TargetTailParsed(acc + [items[0]], items[1..], k);
      assert acc + [items[0]] + items[1..] == acc + items;
    }
  }

  // ---- Endpoints ----

  /** The token an endpoint starts with is no closing token and no separator. */
  predicate StartsEndpoint(t: Token)
  {
    || t.Variable? || t.Int? || t.Real? || t.RealF32? || t.Bool? || t.Str?
    || t == LParen || t == LBracket || t.Ident?
  }

  lemma InlineFirst(e: Endpoint, k: List)
    requires WfInline(e)
    ensures StartsEndpoint(Peek(TkEndpoint(e, k)))
    ensures Peek(TkEndpoint(e, k)).Ident? <==> e.Struct? || (e.Eval? && e.source.Struct?)
  {
  }

  lemma ItemsFirst(items: seq<Endpoint>, k: List)
    requires items != [] && WfItems(items)
    ensures StartsEndpoint(Peek(TkItems(items, k)))
  {
    InlineFirst(items[0], if |items| == 1 then k else Cons(Comma, TkItems(items[1..], k)));
  }

  lemma {:induction false} AtomParsed(e: Endpoint, k: List)
    requires WfAtom(e)
    ensures ParseAtom(TkEndpoint(e, k)) == Ok(e, k)
    decreases e, 0
  {
    match e
    case Tuple(items) => TupleParsed(items, k);
    case Seq(items) => SeqParsed(items, k);
    case Struct(n, fields) => StructParsed(n, fields, k);
    case _ => LiteralParsed(e, k);
  }

  lemma LiteralParsed(e: Endpoint, k: List)
    requires e.Variable? || e.Int? || e.Real? || e.RealF32? || e.Bool? || e.Str? || e.Unit?
    ensures ParseAtom(TkEndpoint(e, k)) == Ok(e, k)
  {
  }

  lemma {:induction false} SeqParsed(items: seq<Endpoint>, k: List)
    requires WfItems(items)
    ensures ParseAtom(Cons(LBracket, TkItems(items, Cons(RBracket, k)))) == Ok(Seq(items), k)
    decreases items, 2
  {
    if items != [] {
      ItemsFirst(items, Cons(RBracket, k));
      ListParsed([], items, RBracket, k);
      hide InlineList, TkItems, WfItems;
      assert [] + items == items;
    }
  }

  lemma {:induction false} StructParsed(n: string, fields: seq<Field>, k: List)
    requires fields != [] && WfFields(fields)
    ensures ParseAtom(Cons(Ident(n), Cons(LBrace, TkFields(fields, Cons(RBrace, k))))) == Ok(Struct(n, fields), k)
    decreases fields, 2
  {
    FieldsParsed([], fields, k);
    assert [] + fields == fields;
  }

  lemma {:induction false} TupleParsed(items: seq<Endpoint>, k: List)
    requires |items| >= 2 && WfItems(items)
    ensures ParseAtom(Cons(LParen, TkItems(items, Cons(RParen, k)))) == Ok(Tuple(items), k)
    decreases items, 2
  {
    hide ParseInline, TupleItems, WfInline, TkEndpoint, TkItems;
    var k1 := Cons(RParen, k);
    var rest := TkItemTail(items[2..], k1);
    ItemsSplit(items, k1);
    InlineFirst(items[0], Cons(Comma, TkEndpoint(items[1], rest)));
    InlineParsed(items[0], Cons(Comma, TkEndpoint(items[1], rest)));
    InlineParsed(items[1], rest);
    ItemTailParsed([items[0], items[1]], items[2..], k1);
    assert [items[0], items[1]] + items[2..] == items;
  }

  function TkItemTail(items: seq<Endpoint>, k: List): List
  {
    if items == [] then k else Cons(Comma, TkEndpoint(items[0], TkItemTail(items[1..], k)))
  }

  lemma {:induction false} ItemsAsTail(items: seq<Endpoint>, k: List)
    requires items != []
    ensures TkItems(items, k) == TkEndpoint(items[0], TkItemTail(items[1..], k))
    decreases |items|
  {
    if |items| > 1 {
      ItemsAsTail(items[1..], k);
    }
  }

  lemma ItemsSplit(items: seq<Endpoint>, k: List)
    requires |items| >= 2 && WfItems(items)
    ensures TkItems(items, k)
         == TkEndpoint(items[0], Cons(Comma, TkEndpoint(items[1], TkItemTail(items[2..], k))))
    ensures WfInline(items[0]) && WfInline(items[1]) && WfItems(items[2..])
    ensures EndsStages(k) ==> EndsStages(TkItemTail(items[2..], k))
  {
    ItemsAsTail(items, k);
    assert items[1..][0] == items[1] && items[1..][1..] == items[2..];
  }

  lemma {:induction false} ItemTailParsed(acc: seq<Endpoint>, items: seq<Endpoint>, k: List)
    requires WfItems(items) && EndsStages(k) && Peek(k) != Comma
    ensures TupleItems(acc, TkItemTail(items, k)) == Ok(acc + items, k)
    decreases items, 1
  {
    if items == [] {
      assert acc + items == acc;
    } else {
      InlineParsed(items[0], TkItemTail(items[1..], k));
      ItemTailParsed(acc + [items[0]], items[1..], k);
      assert acc + [items[0]] + items[1..] == acc + items;
    }
  }

  lemma {:induction false} InlineParsed(e: Endpoint, k: List)
    requires WfInline(e) && EndsStages(k)
    ensures ParseInline(TkEndpoint(e, k)) == Ok(e, k)
    decreases e, 1
  {
    if e.Eval? {
      AtomParsed(e.source, TkStages(e.stages, k));
      StagesParsed([], e.stages, k);
      assert [] + e.stages == e.stages;
    } else {
      AtomParsed(e, k);
    }
  }

  lemma {:induction false} ListParsed(acc: seq<Endpoint>, items: seq<Endpoint>, close: Token, k: List)
    requires items != [] && WfItems(items) && close in {RParen, RBracket}
    ensures InlineList(acc, close, TkItems(items, Cons(close, k))) == Ok(acc + items, k)
    decreases items, 1
  {
    hide ParseInline, TkEndpoint, WfInline;
    var k1 := Cons(close, k);
    if |items| == 1 {
      InlineParsed(items[0], k1);
      assert acc + [items[0]] == acc + items;
    } else {
      var more := TkItems(items[1..], k1);
      InlineParsed(items[0], Cons(Comma, more));
      ItemsFirst(items[1..], k1);
      ListParsed(acc + [items[0]], items[1..], close, k);
      assert acc + [items[0]] + items[1..] == acc + items;
    }
  }

  lemma {:induction false} FieldsParsed(acc: seq<Field>, fields: seq<Field>, k: List)
    requires fields != [] && WfFields(fields)
    ensures StructFields(acc, TkFields(fields, Cons(RBrace, k))) == Ok(acc + fields, k)
    ensures Peek(TkFields(fields, Cons(RBrace, k))).Ident?
    decreases fields, 1
  {
    hide ParseInline, TkEndpoint, WfInline, StructFields;
    var f, k1 := fields[0], Cons(RBrace, k);
    var after := if |fields| == 1 then k1 else Cons(Comma, TkFields(fields[1..], k1));
    InlineParsed(f.value, after);
    FieldStep(acc, f, TkEndpoint(f.value, after), after);
    assert acc + [f] + fields[1..] == acc + fields;
    if |fields| == 1 {
      assert [f] == fields;
    } else {
      FieldsParsed(acc + [f], fields[1..], k);
    }
  }

  lemma FieldStep(acc: seq<Field>, f: Field, ts: List, after: List)
    requires ParseInline(ts) == Ok(f.value, after)
    requires after.Cons? && (after.head == RBrace || (after.head == Comma && Peek(after.tail) != RBrace))
    ensures
      StructFields(acc, Cons(Ident(f.name), Cons(Colon, ts)))
      == if after.head == RBrace then Ok(acc + [f], after.tail) else StructFields(acc + [f], after.tail)
  {
    hide ParseInline;
  }

  // ---- Stages and arms ----

  lemma {:induction false} StagesParsed(acc: seq<Stage>, stages: seq<Stage>, k: List)
    requires WfStages(stages) && EndsStages(k)
    ensures Stages(acc, TkStages(stages, k)) == Ok(acc + stages, k)
    decreases stages, 1
  {
    if stages == [] {
      assert acc + stages == acc;
    } else {
      hide ParseStage, TkStage, WfStage;
      StageParsed(stages[0], TkStages(stages[1..], k));
      StagesParsed(acc + [stages[0]], stages[1..], k);
      assert acc + [stages[0]] + stages[1..] == acc + stages;
    }
  }

  lemma {:induction false} StageParsed(s: Stage, k: List)
    requires WfStage(s) && EndsName(k)
    ensures ParseStage(TkStage(s, k)) == Ok(s, k)
    decreases s, 2
  {
    match s
    case Value(e) => ValueStageParsed(e, k);
    case Bind(t) => TargetParsed(t, k);
    case Match(arms) => MatchStageParsed(arms, k);
    case Repeat(_, _) => RepeatStageParsed(s, k);
    case Reduce(r, identity) => ReduceStageParsed(r, identity, k);
    case Scan(r, identity) => ScanStageParsed(r, identity, k);
    case _ => NodeStageParsed(s, k);
  }

  lemma {:induction false} ValueStageParsed(e: Endpoint, k: List)
    requires WfStage(Stage.Value(e)) && EndsName(k)
    ensures ParseStage(TkEndpoint(e, k)) == Ok(Stage.Value(e), k)
    decreases e, 1
  {
    if e.Name? {
      RefParsed(e.node, k);
    } else {
      AtomParsed(e, k);
      InlineFirst(e, k);
    }
  }

  lemma NodeStageParsed(s: Stage, k: List)
    requires WfStage(s) && EndsName(k) && (s.Map? || s.Filter? || s.FieldOf? || s.FaultMap?)
    ensures ParseStage(TkStage(s, k)) == Ok(s, k)
  {
    match s
    case Map(r) => MapStageParsed(r, k);
    case Filter(r) => FilterStageParsed(r, k);
    case FieldOf(n) => FieldStageParsed(n, k);
    case FaultMap(r, ok, fault) => FaultMapParsed(r, ok, fault, k);
  }

  lemma MapStageParsed(r: NodeRef, k: List)
    requires WfRef(r) && EndsName(k)
    ensures ParseStage(Cons(Ident("map"), TkRef(r, k))) == Ok(Stage.Map(r), k)
  {
    RefParsed(r, k);
    hide ParseNodeRef, TkRef, WfRef;
    assert NodeStage("map", Cons(Ident("map"), TkRef(r, k))) == Ok(Stage.Map(r), k);
  }

  lemma FilterStageParsed(r: NodeRef, k: List)
    requires WfRef(r) && EndsName(k)
    ensures ParseStage(Cons(Ident("filter"), TkRef(r, k))) == Ok(Filter(r), k)
  {
    RefParsed(r, k);
    hide ParseNodeRef, TkRef, WfRef;
    assert NodeStage("filter", Cons(Ident("filter"), TkRef(r, k))) == Ok(Filter(r), k);
  }

  lemma FieldStageParsed(n: string, k: List)
    ensures ParseStage(Cons(Ident("field"), Cons(Ident(n), k))) == Ok(FieldOf(n), k)
  {
    assert NodeStage("field", Cons(Ident("field"), Cons(Ident(n), k))) == Ok(FieldOf(n), k);
  }

  lemma {:induction false} RepeatStageParsed(s: Stage, k: List)
    requires WfStage(s) && EndsName(k) && s.Repeat?
    ensures ParseStage(TkStage(s, k)) == Ok(s, k)
    decreases s, 1
  {
    var count, body := s.count, TkRef(s.node, k);
    RefParsed(s.node, k);
    AtomParsed(count, Cons(Greater, body));
    var ts := TkEndpoint(count, Cons(Greater, body));
    assert Peek(ts).Variable? || Peek(ts).Int?;
    assert RepeatStage(Cons(Less, ts)) == Ok(s, k);
  }

  lemma {:induction false} ReduceStageParsed(r: NodeRef, identity: Endpoint, k: List)
    requires WfRef(r) && WfAtom(identity)
    ensures ParseStage(TkStage(Reduce(r, identity), k)) == Ok(Reduce(r, identity), k)
    decreases identity, 2
  {
    hide ParseStage, ParseNodeRef, TkRef, IdentityArgument;
    var argument := TkIdentity(identity, k);
    RefParsed(r, argument);
    IdentityParsed(identity, k);
    ReduceStep(r, identity, TkRef(r, argument), argument, k);
  }

  lemma ReduceStep(r: NodeRef, identity: Endpoint, ts: List, argument: List, k: List)
    requires ParseNodeRef(ts) == Ok(r, argument) && IdentityArgument(argument) == Ok(identity, k)
    ensures ParseStage(Cons(Ident("reduce"), ts)) == Ok(Reduce(r, identity), k)
  {
    hide ParseNodeRef, IdentityArgument, RepeatStage, NodeStage, Arms;
    StageWordsDiffer();
  }

  lemma {:induction false} ScanStageParsed(r: NodeRef, identity: Endpoint, k: List)
    requires WfRef(r) && WfAtom(identity)
    ensures ParseStage(TkStage(Scan(r, identity), k)) == Ok(Scan(r, identity), k)
    decreases identity, 2
  {
    hide ParseStage, ParseNodeRef, TkRef, IdentityArgument;
    var argument := TkIdentity(identity, k);
    RefParsed(r, argument);
    IdentityParsed(identity, k);
    ScanStep(r, identity, TkRef(r, argument), argument, k);
  }

  lemma ScanStep(r: NodeRef, identity: Endpoint, ts: List, argument: List, k: List)
    requires ParseNodeRef(ts) == Ok(r, argument) && IdentityArgument(argument) == Ok(identity, k)
    ensures ParseStage(Cons(Ident("scan"), ts)) == Ok(Scan(r, identity), k)
  {
    hide ParseNodeRef, IdentityArgument, RepeatStage, NodeStage, Arms;
    StageWordsDiffer();
  }

  lemma {:induction false} MatchStageParsed(arms: seq<MatchArm>, k: List)
    requires WfArms(arms)
    ensures ParseStage(TkStage(Match(arms), k)) == Ok(Match(arms), k)
    decreases arms, 2
  {
    ArmsParsed([], arms, k);
    assert [] + arms == arms;
  }

  lemma FaultMapParsed(r: NodeRef, ok: string, fault: string, k: List)
    requires WfRef(r)
    ensures ParseStage(TkStage(FaultMap(r, ok, fault), k)) == Ok(FaultMap(r, ok, fault), k)
  {
    OutcomesParsed(r, ok, fault, k);
    hide FaultMapStage, TkFaultMap, WfRef;
    var ts := Cons(Ident("fault"), TkFaultMap(r, ok, fault, k));
    assert NodeStage("fault", ts) == Ok(FaultMap(r, ok, fault), k);
  }

  lemma OutcomesParsed(r: NodeRef, ok: string, fault: string, k: List)
    requires WfRef(r)
    ensures FaultMapStage(TkFaultMap(r, ok, fault, k)) == Ok(FaultMap(r, ok, fault), k)
  {
    RefParsed(r, Cons(LBrace, TkOutcomes(ok, fault, k)));
    hide ParseNodeRef, TkRef, WfRef;
  }

  lemma {:induction false} IdentityParsed(identity: Endpoint, k: List)
    requires WfAtom(identity)
    ensures IdentityArgument(TkIdentity(identity, k)) == Ok(identity, k)
    decreases identity, 1
  {
    AtomParsed(identity, Cons(RParen, k));
  }

  lemma {:induction false} ArmsParsed(acc: seq<MatchArm>, arms: seq<MatchArm>, k: List)
    requires WfArms(arms)
    ensures Arms(acc, false, TkArms(arms, Cons(RBrace, k))) == Ok(acc + arms, k)
    ensures Peek(TkArms(arms, Cons(RBrace, k))).Ident?
    decreases arms, 1
  {
    hide TkArm, WfArm, Guard, ParseMatchTarget, Arms;
    var arm, more := arms[0], TkArms(arms[1..], Cons(RBrace, k));
    if |arms| == 1 {
      assert more == Cons(RBrace, k);
      ArmsEnd(acc + arms, k);
    } else {
      ArmsParsed(acc + [arm], arms[1..], k);
    }
    ArmParsed(arm, more);
    ArmStep(acc, arm, more);
    assert acc + [arm] + arms[1..] == acc + arms;
    assert |arms| == 1 ==> [arm] == arms;
  }

  lemma ArmsEnd(acc: seq<MatchArm>, k: List)
    requires acc != []
    ensures Arms(acc, true, Cons(RBrace, k)) == Ok(acc, k)
  {
  }

  lemma ArmStep(acc: seq<MatchArm>, arm: MatchArm, k: List)
    requires Guard(TkArm(arm, k)) == Ok(arm.guard, Cons(Arrow, TkMatchTarget(arm.target, k)))
    requires ParseMatchTarget(TkMatchTarget(arm.target, k)) == Ok(arm.target, k)
    requires Peek(TkArm(arm, k)).Ident?
    ensures Arms(acc, false, TkArm(arm, k)) == Arms(acc + [arm], arm.guard.Fallback?, k)
  {
    hide Guard, TkArm, TkMatchTarget, ParseMatchTarget;
  }

  lemma {:induction false} ArmParsed(arm: MatchArm, k: List)
    requires WfArm(arm) && EndsStages(k)
    ensures
      var ts := TkArm(arm, k);
      var after := Cons(Arrow, TkMatchTarget(arm.target, k));
      Guard(ts) == Ok(arm.guard, after) && ParseMatchTarget(after.tail) == Ok(arm.target, k) && Peek(ts).Ident?
    decreases arm, 1
  {
    var after := Cons(Arrow, TkMatchTarget(arm.target, k));
    GuardParsed(arm.guard, after);
    match arm.target
    case ToNode(r) => RefParsed(r, k);
    case ToValue(e) =>
      InlineFirst(e, k);
      InlineParsed(e, k);
  }

  lemma {:induction false} GuardParsed(g: MatchGuard, k: List)
    requires WfGuard(g)
    ensures Guard(TkGuard(g, k)) == Ok(g, k)
    ensures Peek(TkGuard(g, k)).Ident?
    decreases g, 1
  {
    if g.Call? {
      var args := TkItems(g.args, Cons(RParen, k));
      RefParsed(g.node, Cons(LParen, args));
      if g.args != [] {
        ItemsFirst(g.args, Cons(RParen, k));
        ListParsed([], g.args, RParen, k);
        assert [] + g.args == g.args;
      }
    }
  }

  // ---- Types and ports ----

  lemma {:induction false} TypeTailParsed(text: TypeText, depth: nat, ty: TypeText, k: List)
    requires TypeReads(text == [], depth, ty) && StopsType(Peek(k))
    ensures TypeTail(text, depth, TkType(ty, k)) == Ok(text + ty, k)
    decreases |ty|
  {
    if ty == [] {
      assert text + ty == text;
    } else {
      TypeTailParsed(text + [ty[0]], DepthAfter(depth, ty[0]), ty[1..], k);
      assert text + [ty[0]] + ty[1..] == text + ty;
    }
  }

  lemma TypeParsed(ty: TypeText, k: List)
    requires WfType(ty) && StopsType(Peek(k))
    ensures ParseType(TkType(ty, k)) == Ok(ty, k)
    ensures ContinuesType(true, 0, Peek(TkType(ty, k)))
  {
    TypeTailParsed([], 0, ty, k);
    assert [] + ty == ty;
  }

  lemma PortParsed(p: Port, k: List)
    requires WfPort(p) && StopsType(Peek(k))
    ensures ParsePort(TkPort(p, k)) == Ok(p, k)
  {
    TypeParsed(p.ty, k);
  }

  function TkPortTail(ps: seq<Port>, k: List): List
  {
    if ps == [] then k else Cons(Comma, TkPort(ps[0], TkPortTail(ps[1..], k)))
  }

  lemma {:induction false} PortsAsTail(ps: seq<Port>, k: List)
    requires ps != []
    ensures TkPorts(ps, k) == TkPort(ps[0], TkPortTail(ps[1..], k))
    decreases |ps|
  {
    if |ps| > 1 {
      PortsAsTail(ps[1..], k);
    }
  }

  lemma {:induction false} PortTailParsed(acc: seq<Port>, ps: seq<Port>, k: List)
    requires WfPorts(ps) && StopsType(Peek(k)) && Peek(k) != Comma
    ensures PortTail(acc, TkPortTail(ps, k)) == Ok(acc + ps, k)
    decreases |ps|
  {
    if ps == [] {
      assert acc + ps == acc;
    } else {
      PortParsed(ps[0], TkPortTail(ps[1..], k));
      PortTailParsed(acc + [ps[0]], ps[1..], k);
      assert acc + [ps[0]] + ps[1..] == acc + ps;
    }
  }

  lemma PortListParsed(ps: seq<Port>, k: List)
    requires ps != [] && WfPorts(ps)
    ensures PortList(TkPorts(ps, Cons(RParen, k))) == Ok(ps, Cons(RParen, k))
    ensures Peek(TkPorts(ps, Cons(RParen, k))).Ident?
  {
    var k1 := Cons(RParen, k);
    PortsAsTail(ps, k1);
    PortParsed(ps[0], TkPortTail(ps[1..], k1));
    PortTailParsed([ps[0]], ps[1..], k1);
    assert [ps[0]] + ps[1..] == ps;
  }

  lemma PortOrListParsed(ps: seq<Port>, k: List)
    requires ps != [] && WfPorts(ps) && StopsType(Peek(k))
    ensures PortOrList(TkPortOrList(ps, k)) == Ok(ps, k)
  {
    if |ps| == 1 {
      PortParsed(ps[0], k);
      assert [ps[0]] == ps;
    } else {
      PortListParsed(ps, k);
    }
  }

  lemma InputsParsed(ps: seq<Port>, k: List)
    requires WfPorts(ps)
    ensures Inputs(TkInputs(ps, k)) == Ok(ps, k)
  {
    if ps != [] {
      PortListParsed(ps, k);
    }
  }

  // ---- Declarations ----

  lemma {:induction false} StructPortsParsed(acc: seq<Port>, ps: seq<Port>, k: List)
    requires ps != [] && WfPorts(ps)
    ensures StructPorts(acc, TkStructPorts(ps, Cons(RBrace, k))) == Ok(acc + ps, k)
    ensures Peek(TkStructPorts(ps, Cons(RBrace, k))).Ident?
    decreases |ps|
  {
    hide ParsePort, WfPort;
    var more := TkStructPorts(ps[1..], Cons(RBrace, k));
    PortParsed(ps[0], Cons(Comma, more));
    if |ps| == 1 {
      assert acc + [ps[0]] == acc + ps;
    } else {
      StructPortsParsed(acc + [ps[0]], ps[1..], k);
      assert acc + [ps[0]] + ps[1..] == acc + ps;
    }
  }

  lemma ItemParsed(i: ImportItem, k: List)
    requires Peek(k) != Ident("as")
    ensures ParseItem(TkItem(i, k)) == Ok(i, k)
  {
  }

  lemma {:induction false} ImportItemsParsed(acc: seq<ImportItem>, items: seq<ImportItem>, lastComma: bool, k: List)
    requires items != []
    ensures ImportItems(acc, TkImportItems(items, lastComma, Cons(RBrace, k))) == Ok(acc + items, k)
    ensures Peek(TkImportItems(items, lastComma, Cons(RBrace, k))).Ident?
    decreases |items|
  {
    var k1 := Cons(RBrace, k);
    if |items| == 1 {
      ItemParsed(items[0], if lastComma then Cons(Comma, k1) else k1);
      assert acc + [items[0]] == acc + items;
    } else {
      ItemParsed(items[0], Cons(Comma, TkImportItems(items[1..], lastComma, k1)));
      ImportItemsParsed(acc + [items[0]], items[1..], lastComma, k);
      assert acc + [items[0]] + items[1..] == acc + items;
    }
  }

  lemma ImportParsed(d: Decl, lastComma: bool, k: List)
    requires WfDecl(d) && d.Import?
    ensures ParseImport(TkDecl(d, lastComma, k).tail) == Ok(d, k)
  {
    var after := TkDecl(d, lastComma, k).tail;
    match d.clause
    case As(n) =>
      SourceParsed(d.source, Cons(Ident("as"), Cons(Ident(n), k)));
    case Items(items) =>
      SourceParsed(d.source, Cons(LBrace, TkImportItems(items, lastComma, Cons(RBrace, k))));
      ImportItemsParsed([], items, lastComma, k);
      assert [] + items == items;
  }

  lemma SourceParsed(s: ImportSource, k: List)
    requires (s.FromModule? ==> WfQName(s.path)) && Peek(k) != Dot
    ensures ParseSource(TkSource(s, k)) == Ok(s, k)
  {
    if s.FromModule? {
      QNameParsed(s.path, k);
    }
  }

  lemma ForeignNodeParsed(n: ForeignNode, k: List)
    requires WfForeignNode(n) && Peek(k) != Dot
    ensures ParseForeignNode(TkForeignNode(n, k)) == Ok(n, k)
  {
    hide Inputs, PortOrList, QIdent, TkInputs, TkPortOrList, TkQName, WfPorts, WfQName;
    var k1 := Cons(Equal, TkQName(n.symbol, k));
    QNameParsed(n.symbol, k);
    PortOrListParsed(n.outputs, k1);
    InputsParsed(n.inputs, Cons(Arrow, TkPortOrList(n.outputs, k1)));
  }

  lemma {:induction false} ForeignNodesParsed(acc: seq<ForeignNode>, ns: seq<ForeignNode>, k: List)
    requires acc + ns != [] && forall i :: 0 <= i < |ns| ==> WfForeignNode(ns[i])
    ensures ForeignNodes(acc, TkForeignNodes(ns, Cons(RBrace, k))) == Ok(acc + ns, k)
    ensures Peek(TkForeignNodes(ns, Cons(RBrace, k))) != Dot
    decreases |ns|
  {
    if ns == [] {
      assert acc + ns == acc;
    } else {
      assert acc + [ns[0]] + ns[1..] == acc + ns;
      ForeignNodesParsed(acc + [ns[0]], ns[1..], k);
      ForeignNodeParsed(ns[0], TkForeignNodes(ns[1..], Cons(RBrace, k)));
    }
  }

  lemma ForeignHeadParsed(language: ForeignTarget, origin: ForeignSource, k: List)
    requires (language.C? <==> origin.CHeader?) && Peek(k) == LBrace
    ensures ParseForeignHead(TkForeignHead(language, origin, k)) == Ok((language, origin), k)
  {
  }

  lemma ParamParsed(p: NodeParam, k: List)
    requires WfParam(p) && StopsType(Peek(k))
    ensures ParseParam(TkParam(p, k)) == Ok(p, k)
  {
    var k1 := Cons(Arrow, TkType(p.output, k));
    TypeParsed(p.output, k);
    TypeParsed(p.input, Cons(RParen, k1));
  }

  lemma {:induction false} ParamListParsed(acc: seq<NodeParam>, ps: seq<NodeParam>, k: List)
    requires ps != [] && forall i :: 0 <= i < |ps| ==> WfParam(ps[i])
    ensures NodeParams(acc, TkParamList(ps, Cons(Greater, k))) == Ok(acc + ps, k)
    ensures Peek(TkParamList(ps, Cons(Greater, k))).Ident?
    decreases |ps|
  {
    hide ParseParam, WfParam;
    var k1 := Cons(Greater, k);
    if |ps| == 1 {
      ParamParsed(ps[0], k1);
      assert acc + [ps[0]] == acc + ps;
    } else {
      ParamParsed(ps[0], Cons(Comma, TkParamList(ps[1..], k1)));
      ParamListParsed(acc + [ps[0]], ps[1..], k);
      assert acc + [ps[0]] + ps[1..] == acc + ps;
    }
  }

  lemma ChainParsed(c: Chain, k: List)
    requires WfChain(c) && EndsStages(k)
    ensures ParseChain(TkChain(c, k)) == Ok(c, k)
    ensures StartsEndpoint(Peek(TkChain(c, k)))
  {
    AtomParsed(c.source, TkStages(c.stages, k));
    InlineFirst(c.source, TkStages(c.stages, k));
    StagesParsed([], c.stages, k);
    hide ParseAtom, TkEndpoint, WfAtom, WfStages, Stages, TkStages;
    assert [] + c.stages == c.stages;
  }

  lemma {:induction false} ChainsParsed(acc: seq<Chain>, cs: seq<Chain>, k: List)
    requires forall i :: 0 <= i < |cs| ==> WfChain(cs[i])
    ensures Chains(acc, TkChains(cs, Cons(RBrace, k))) == Ok(acc + cs, k)
    ensures EndsStages(TkChains(cs, Cons(RBrace, k)))
    decreases |cs|
  {
    hide ParseChain, TkChain, WfChain;
    if cs == [] {
      assert acc + cs == acc;
    } else {
      ChainsParsed(acc + [cs[0]], cs[1..], k);
      ChainParsed(cs[0], TkChains(cs[1..], Cons(RBrace, k)));
      assert acc + [cs[0]] + cs[1..] == acc + cs;
    }
  }

  lemma ParamsParsed(ps: seq<NodeParam>, k: List)
    requires (forall i :: 0 <= i < |ps| ==> WfParam(ps[i])) && Peek(k) == LParen
    ensures ParseNodeParams(TkParams(ps, k)) == Ok(ps, k)
  {
    if ps != [] {
      ParamListParsed([], ps, k);
      assert [] + ps == ps;
    }
  }

  lemma CallableParsed(c: Callable, k: List)
    requires WfCallable(c)
    ensures ParseCallable(c.isExtern, TkCallable(c, k)) == Ok(c, k)
  {
    hide Inputs, PortOrList, TkPortOrList, WfPorts, WfChain, ParseNodeParams, WfParam;
    var body := Cons(LBrace, TkChains(c.chains, Cons(RBrace, k)));
    var outs := Cons(Arrow, TkPortOrList(c.outputs, body));
    var ins := TkInputs(c.inputs, outs);
    ChainsParsed([], c.chains, k);
    assert [] + c.chains == c.chains;
    PortOrListParsed(c.outputs, body);
    InputsParsed(c.inputs, outs);
    ParamsParsed(c.nodeParams, ins);
  }

  lemma AliasParsed(n: string, ty: TypeText, k: List)
    requires WfType(ty) && StopsType(Peek(k))
    ensures ParseAlias(Cons(Ident(n), Cons(Equal, TkType(ty, k)))) == Ok(TypeAlias(n, ty), k)
  {
    TypeParsed(ty, k);
  }

  lemma StructDeclParsed(n: string, fields: seq<Port>, k: List)
    requires fields != [] && WfPorts(fields)
    ensures ParseStruct(Cons(Ident(n), Cons(LBrace, TkStructPorts(fields, Cons(RBrace, k)))))
            == Ok(StructDecl(n, fields), k)
  {
    StructPortsParsed([], fields, k);
    assert [] + fields == fields;
  }

  lemma ForeignParsed(language: ForeignTarget, origin: ForeignSource, nodes: seq<ForeignNode>, k: List)
    requires WfDecl(Foreign(language, origin, nodes))
    ensures
      ParseForeign(TkForeignHead(language, origin, Cons(LBrace, TkForeignNodes(nodes, Cons(RBrace, k)))))
      == Ok(Foreign(language, origin, nodes), k)
  {
    hide ParseForeignHead, TkForeignHead, WfForeignNode;
    ForeignNodesParsed([], nodes, k);
    assert [] + nodes == nodes;
    ForeignHeadParsed(language, origin, Cons(LBrace, TkForeignNodes(nodes, Cons(RBrace, k))));
  }

  lemma DeclParsed(d: Decl, lastComma: bool, k: List)
    requires WfDecl(d) && StopsType(Peek(k))
    ensures ParseDecl(TkDecl(d, lastComma, k)) == Ok(d, k)
    ensures Peek(TkDecl(d, lastComma, k)).Ident? && StopsType(Peek(TkDecl(d, lastComma, k)))
  {
    hide ParseType, WfType, ParseAlias, ParseStruct, ParseImport, ParseForeign, ParseCallable, TkCallable,
         TkForeignHead, TkSource, WfCallable, WfForeignNode, WfPorts, WfQName;
    match d
    case TypeAlias(n, ty) => AliasParsed(n, ty, k);
    case StructDecl(n, fields) => StructDeclParsed(n, fields, k);
    case Import(_, _) => ImportParsed(d, lastComma, k);
    case Foreign(language, origin, nodes) => ForeignParsed(language, origin, nodes, k);
    case Node(c) => NodeDeclParsed(c, k);
    case Program(c) => CallableParsed(c, k);
  }

  lemma NodeDeclParsed(c: Callable, k: List)
    requires WfCallable(c)
    ensures ParseDecl(TkDecl(Decl.Node(c), false, k)) == Ok(Decl.Node(c), k)
  {
    hide ParseDecl, ParseCallable, TkCallable;
    CallableParsed(c, k);
    if c.isExtern {
      ExternParsed(c, TkCallable(c, k), k);
    } else {
      PlainNodeParsed(c, TkCallable(c, k), k);
    }
  }

  lemma ExternParsed(c: Callable, ts: List, k: List)
    requires ParseCallable(true, ts) == Ok(c, k)
    ensures ParseDecl(Cons(Ident("extern"), Cons(Ident("node"), ts))) == Ok(Decl.Node(c), k)
  {
    hide ParseCallable, ParseAlias, ParseStruct, ParseImport, ParseForeign;
    DeclarationWordsDiffer();
  }

  lemma PlainNodeParsed(c: Callable, ts: List, k: List)
    requires ParseCallable(false, ts) == Ok(c, k)
    ensures ParseDecl(Cons(Ident("node"), ts)) == Ok(Decl.Node(c), k)
  {
    hide ParseCallable, ParseAlias, ParseStruct, ParseImport, ParseForeign;
    DeclarationWordsDiffer();
  }

  lemma {:induction false} DeclsParsed(acc: seq<Decl>, ds: seq<Decl>, lastComma: seq<bool>)
    requires |ds| == |lastComma| && forall i :: 0 <= i < |ds| ==> WfDecl(ds[i])
    ensures Decls(acc, TkDecls(ds, lastComma)) == Ok(acc + ds, Nil)
    ensures StopsType(Peek(TkDecls(ds, lastComma)))
    decreases |ds|
  {
    hide ParseDecl, TkDecl, WfDecl;
    if ds == [] {
      assert acc + ds == acc;
    } else {
      var more := TkDecls(ds[1..], lastComma[1..]);
      DeclsParsed(acc + [ds[0]], ds[1..], lastComma[1..]);
      DeclParsed(ds[0], lastComma[0], more);
      DeclStep(acc, ds[0], TkDecl(ds[0], lastComma[0], more), more);
      assert acc + [ds[0]] + ds[1..] == acc + ds;
    }
  }

  lemma DeclStep(acc: seq<Decl>, d: Decl, ts: List, more: List)
    requires ParseDecl(ts) == Ok(d, more) && ts.Cons?
    ensures Decls(acc, ts) == Decls(acc + [d], more)
  {
    hide ParseDecl;
  }

  /** Token level: whichever imports are written over several lines, parsing gives the module back. */
  lemma ModuleParsed(m: Module, lastComma: seq<bool>)
    requires WfModule(m) && |lastComma| == |m.declarations|
    ensures ParseModule(TkDecls(m.declarations, lastComma)) == Some(m)
  {
    DeclsParsed([], m.declarations, lastComma);
    assert [] + m.declarations == m.declarations;
  }
}
