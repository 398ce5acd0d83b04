/** The blanks that src/fmt.rs puts between the tokens of a chain. */
module Spacing {
  import opened Tokens
  import opened Ast
  import opened Rendering
  import opened WellFormed
  import opened Formatting

  predicate Tight(t: Token)
  {
    t.RParen? || t.RBracket? || t.Comma? || t.Colon? || t.Dot? || t.Less? || t.Greater?
  }

  /**
   * The blanks between two neighbouring tokens: none inside delimiters, around the dots of a name, before the comma,
   * the colon and the parenthesis of a call, or within `<` and `>`; one blank everywhere else.
   */
  function Gap(prev: Token, angle: bool, next: Token): nat
  {
    if angle || Tight(next) then 0
    else if prev.LParen? || prev.LBracket? || prev.Dot? then 0
    else if next.LParen? && (prev.Ident? || prev.Greater?) then 0
    else 1
  }

  /** Every token of the text has the right blanks before it; `prev` and `gap` are what is before the text. */
  predicate Spaced(prev: Token, angle: bool, gap: nat, t: Text)
    decreases t
  {
    match t
    case End => gap == 0
    case T(token, rest) =>
      gap == Gap(prev, angle, token) && Spaced(token, token.Less? || (angle && !token.Greater?), 0, rest)
    case W(blank, rest) => blank == " " && Spaced(prev, angle, gap + 1, rest)
  }

  /** A token that a name, a value or a target begins with. */
  predicate IsFirst(t: Token)
  {
    t.Ident? || t.Variable? || t.Discard? || t.Int? || t.Real? || t.RealF32? || t.Bool? || t.Str? || t.LParen? || t.LBracket?
  }

  /** A token that one ends with. */
  predicate IsLast(t: Token)
  {
    || t.Ident? || t.Variable? || t.Discard? || t.Int? || t.Real? || t.RealF32? || t.Bool? || t.Str?
    || t.RParen? || t.RBracket? || t.RBrace? || t.Greater?
  }

  /** A value may come next. */
  ghost predicate Opens(prev: Token, gap: nat) { forall t :: IsFirst(t) ==> gap == Gap(prev, false, t) }

  ghost predicate Continues(k: Text) { forall t :: IsLast(t) ==> Spaced(t, false, 0, k) }

  ghost predicate ContinuesName(k: Text) { forall t: Token :: t.Ident? || t.Greater? ==> Spaced(t, false, 0, k) }

  lemma Put(prev: Token, angle: bool, gap: nat, token: Token, k: Text)
    requires gap == Gap(prev, angle, token)
    requires Spaced(token, token.Less? || (angle && !token.Greater?), 0, k)
    ensures Spaced(prev, angle, gap, T(token, k))
  {}

  lemma Blank(prev: Token, k: Text)
    requires Spaced(prev, false, 1, k)
    ensures Spaced(prev, false, 0, W(" ", k))
  {}

  lemma PutBlank(prev: Token, token: Token, k: Text)
    requires Gap(prev, false, token) == 1 && !token.Less? && Spaced(token, false, 0, k)
    ensures Spaced(prev, false, 0, W(" ", T(token, k)))
  {
    Put(prev, false, 1, token, k);
  }

  /** A token with a blank before it, behind any value. */
  lemma Goes(token: Token, k: Text)
    requires (token.Arrow? || token.RBrace? || token.LBrace? || token.Ident?) && Spaced(token, false, 0, k)
    ensures Continues(W(" ", T(token, k)))
  {
    hide Spaced;
    forall t | IsLast(t)
      ensures Spaced(t, false, 0, W(" ", T(token, k)))
    {
      PutBlank(t, token, k);
    }
  }

  /** A closing token or a comma, behind any value. */
  lemma Closes(token: Token, k: Text)
    requires (token.RParen? || token.RBracket? || token.Comma?) && Spaced(token, false, 0, k)
    ensures Continues(T(token, k))
  {
    hide Spaced;
    forall t | IsLast(t)
      ensures Spaced(t, false, 0, T(token, k))
    {
      Put(t, false, 0, token, k);
    }
  }

  lemma At(t: Token, k: Text)
    requires Continues(k) && IsLast(t)
    ensures Spaced(t, false, 0, k)
  {}

  // ---- Names ----

  lemma {:induction false} SegmentsSpaced(prev: Token, angle: bool, q: QName, k: Text)
    requires prev.Ident? && forall t: Token :: t.Ident? ==> Spaced(t, angle, 0, k)
    ensures Spaced(prev, angle, 0, FmtSegments(q, k))
    decreases |q|
  {
    hide Spaced;
    if q != [] {
      var rest := FmtSegments(q[1..], k);
      SegmentsSpaced(Ident(q[0]), angle, q[1..], k);
      Put(Dot, angle, 0, Ident(q[0]), rest);
      Put(prev, angle, 0, Dot, T(Ident(q[0]), rest));
    }
  }

  lemma {:induction false} ArgsSpaced(prev: Token, args: seq<QName>, k: Text)
    requires args != [] && forall i :: 0 <= i < |args| ==> args[i] != []
    requires forall t: Token :: t.Ident? ==> Spaced(t, true, 0, k)
    ensures Spaced(prev, true, 0, FmtArgs(args, k))
    decreases |args|
  {
    hide Spaced;
    var q := args[0];
    var rest := k;
    if |args| > 1 {
      rest := T(Comma, FmtArgs(args[1..], k));
      ArgsSpaced(Comma, args[1..], k);
      forall t: Token | t.Ident?
        ensures Spaced(t, true, 0, rest)
      {
        Put(t, true, 0, Comma, FmtArgs(args[1..], k));
      }
    }
    SegmentsSpaced(Ident(q[0]), true, q[1..], rest);
    Put(prev, true, 0, Ident(q[0]), FmtSegments(q[1..], rest));
  }

  lemma StaticArgsSpaced(args: seq<QName>, k: Text)
    requires args != [] && (forall i :: 0 <= i < |args| ==> args[i] != []) && Spaced(Greater, false, 0, k)
    ensures forall t: Token :: t.Ident? ==> Spaced(t, false, 0, T(Less, FmtArgs(args, T(Greater, k))))
  {
    hide Spaced;
    forall t: Token | t.Ident?
      ensures Spaced(t, true, 0, T(Greater, k))
    {
      Put(t, true, 0, Greater, k);
    }
    ArgsSpaced(Less, args, T(Greater, k));
    forall t: Token | t.Ident?
      ensures Spaced(t, false, 0, T(Less, FmtArgs(args, T(Greater, k))))
    {
      Put(t, false, 0, Less, FmtArgs(args, T(Greater, k)));
    }
  }

  lemma RefSpaced(prev: Token, gap: nat, r: NodeRef, k: Text)
    requires WfRef(r) && gap == Gap(prev, false, Ident(r.base[0])) && ContinuesName(k)
    ensures Spaced(prev, false, gap, FmtRef(r, k))
  {
    hide Spaced;
    var rest := if r.args == [] then k else T(Less, FmtArgs(r.args, T(Greater, k)));
    if r.args != [] {
      StaticArgsSpaced(r.args, k);
    }
    SegmentsSpaced(Ident(r.base[0]), false, r.base[1..], rest);
    Put(prev, false, gap, Ident(r.base[0]), FmtSegments(r.base[1..], rest));
  }

  // ---- Endpoints and stages ----

  lemma {:induction false} EndpointSpaced(prev: Token, gap: nat, e: Endpoint, k: Text)
    requires WfInline(e) && Opens(prev, gap) && Continues(k)
    ensures Spaced(prev, false, gap, FmtEndpoint(e, k))
    decreases e, 0
  {
    hide Spaced, Opens, Continues, Gap;
    match e
    case Variable(n) => Literal(prev, gap, Token.Variable(n), k);
    case Int(n) => Literal(prev, gap, Token.Int(n), k);
    case Real(text) => Literal(prev, gap, Token.Real(text), k);
    case RealF32(text) => Literal(prev, gap, Token.RealF32(text), k);
    case Bool(b) => Literal(prev, gap, Token.Bool(b), k);
    case Str(s) => Literal(prev, gap, Token.Str(s), k);
    case Unit => Bracketed(prev, gap, LParen, RParen, k);
    case Tuple(items) =>
      ItemsSpaced(LParen, items, RParen, k);
      First(prev, gap, LParen, FmtItems(items, T(RParen, k)));
    case Seq(items) =>
      ItemsSpaced(LBracket, items, RBracket, k);
      First(prev, gap, LBracket, FmtItems(items, T(RBracket, k)));
    case Struct(n, fields) =>
      FieldsSpaced(LBrace, fields, k);
      StructSpaced(prev, gap, n, FmtFields(fields, W(" ", T(RBrace, k))));
    case Eval(source, stages) =>
      StagesSpaced(stages, k);
      EndpointSpaced(prev, gap, source, FmtStages(stages, k));
  }

  lemma First(prev: Token, gap: nat, token: Token, k: Text)
    requires Opens(prev, gap) && IsFirst(token) && Spaced(token, false, 0, k)
    ensures Spaced(prev, false, gap, T(token, k))
  {
    hide Spaced;
    Put(prev, false, gap, token, k);
  }

  lemma Literal(prev: Token, gap: nat, token: Token, k: Text)
    requires Opens(prev, gap) && IsFirst(token) && IsLast(token) && Continues(k)
    ensures Spaced(prev, false, gap, T(token, k))
  {
    At(token, k);
    First(prev, gap, token, k);
  }

  lemma Bracketed(prev: Token, gap: nat, open: Token, close: Token, k: Text)
    requires Opens(prev, gap) && Continues(k)
    requires (open.LParen? && close.RParen?) || (open.LBracket? && close.RBracket?)
    ensures Spaced(prev, false, gap, T(open, T(close, k)))
  {
    hide Spaced;
    At(close, k);
    Put(open, false, 0, close, k);
    First(prev, gap, open, T(close, k));
  }

  lemma StructSpaced(prev: Token, gap: nat, n: string, k: Text)
    requires Opens(prev, gap) && Spaced(LBrace, false, 1, k)
    ensures Spaced(prev, false, gap, T(Ident(n), W(" ", T(LBrace, W(" ", k)))))
  {
    hide Spaced;
    Blank(LBrace, k);
    PutBlank(Ident(n), LBrace, W(" ", k));
    First(prev, gap, Ident(n), W(" ", T(LBrace, W(" ", k))));
  }

  /** The items between two brackets. */
  lemma {:induction false} ItemsSpaced(prev: Token, items: seq<Endpoint>, close: Token, k: Text)
    requires WfItems(items) && (close.RParen? || close.RBracket?) && Continues(k)
    requires prev.LParen? || prev.LBracket? || (prev.Comma? && items != [])
    ensures Spaced(prev, false, if prev.Comma? then 1 else 0, FmtItems(items, T(close, k)))
    decreases items, 1
  {
    hide Spaced;
    At(close, k);
    if items == [] {
      Put(prev, false, 0, close, k);
    } else {
      var rest := T(close, k);
      Closes(close, k);
      if |items| > 1 {
        ItemsSpaced(Comma, items[1..], close, k);
        Blank(Comma, FmtItems(items[1..], T(close, k)));
        Closes(Comma, W(" ", FmtItems(items[1..], T(close, k))));
        rest := T(Comma, W(" ", FmtItems(items[1..], T(close, k))));
      }
      EndpointSpaced(prev, if prev.Comma? then 1 else 0, items[0], rest);
    }
  }

  lemma {:induction false} FieldsSpaced(prev: Token, fields: seq<Field>, k: Text)
    requires fields != [] && WfFields(fields) && Continues(k) && (prev.LBrace? || prev.Comma?)
    ensures Spaced(prev, false, 1, FmtFields(fields, W(" ", T(RBrace, k))))
    decreases fields, 1
  {
    hide Spaced;
    var end := W(" ", T(RBrace, k));
    At(RBrace, k);
    Goes(RBrace, k);
    var rest := end;
    if |fields| > 1 {
      FieldsSpaced(Comma, fields[1..], k);
      Blank(Comma, FmtFields(fields[1..], end));
      Closes(Comma, W(" ", FmtFields(fields[1..], end)));
      rest := T(Comma, W(" ", FmtFields(fields[1..], end)));
    }
    EndpointSpaced(Colon, 1, fields[0].value, rest);
    FieldSpaced(prev, fields[0].name, FmtEndpoint(fields[0].value, rest));
  }

  lemma FieldSpaced(prev: Token, name: string, k: Text)
    requires (prev.LBrace? || prev.Comma? || prev.LParen?) && Spaced(Colon, false, 1, k)
    ensures Spaced(prev, false, if prev.LParen? then 0 else 1, T(Ident(name), T(Colon, W(" ", k))))
  {
    hide Spaced;
    Blank(Colon, k);
    Put(Ident(name), false, 0, Colon, W(" ", k));
    Put(prev, false, if prev.LParen? then 0 else 1, Ident(name), T(Colon, W(" ", k)));
  }

  lemma {:induction false} StagesSpaced(stages: seq<Stage>, k: Text)
    requires WfStages(stages) && Continues(k)
    ensures Continues(FmtStages(stages, k))
    decreases stages, 1
  {
    hide Spaced, Continues;
    if stages != [] {
      var rest := FmtStages(stages[1..], k);
      StagesSpaced(stages[1..], k);
      StageSpaced(stages[0], rest);
      Blank(Arrow, FmtStage(stages[0], rest));
      Goes(Arrow, W(" ", FmtStage(stages[0], rest)));
    }
  }

  /** A stage behind its arrow. */
  lemma {:induction false} StageSpaced(s: Stage, k: Text)
    requires WfStage(s) && Continues(k)
    ensures Spaced(Arrow, false, 1, FmtStage(s, k))
    decreases s, 1
  {
    hide Spaced, FmtFaultMap, Continues, ContinuesName;
    NamesContinue(k);
    match s
    case Value(e) =>
      if e.Name? {
        RefSpaced(Arrow, 1, e.node, k);
      } else {
        EndpointSpaced(Arrow, 1, e, k);
      }
    case Bind(t) => TargetSpaced(Arrow, 1, t, k);
    case Map(r) => WordAndRef("map", r, k);
    case FaultMap(r, ok, fault) => FaultMapSpaced(r, ok, fault, k);
    case Filter(r) => WordAndRef("filter", r, k);
    case FieldOf(n) =>
      At(Ident(n), k);
      PutBlank(Ident("field"), Ident(n), k);
      Put(Arrow, false, 1, Ident("field"), W(" ", T(Ident(n), k)));
    case Repeat(count, r) => RepeatSpaced(count, r, k);
    case Reduce(r, identity) =>
      IdentitySpaced(identity, k);
      WordAndRef("reduce", r, FmtIdentity(identity, k));
    case Scan(r, identity) =>
      IdentitySpaced(identity, k);
      WordAndRef("scan", r, FmtIdentity(identity, k));
    case Match(arms) =>
      ArmsSpaced(LBrace, arms, k);
      var body := FmtArms(arms, W(" ", T(RBrace, k)));
      Blank(LBrace, body);
      PutBlank(Ident("match"), LBrace, W(" ", body));
      Put(Arrow, false, 1, Ident("match"), W(" ", T(LBrace, W(" ", body))));
  }

  lemma NamesContinue(k: Text)
    requires Continues(k)
    ensures ContinuesName(k)
  {}

  lemma WordAndRef(word: string, r: NodeRef, k: Text)
    requires WfRef(r) && ContinuesName(k)
    ensures Spaced(Arrow, false, 1, T(Ident(word), W(" ", FmtRef(r, k))))
  {
    hide Spaced, ContinuesName;
    RefSpaced(Ident(word), 1, r, k);
    Blank(Ident(word), FmtRef(r, k));
    Put(Arrow, false, 1, Ident(word), W(" ", FmtRef(r, k)));
  }

  lemma RepeatSpaced(count: Endpoint, r: NodeRef, k: Text)
    requires (count.Variable? || count.Int?) && WfRef(r) && ContinuesName(k)
    ensures Spaced(Arrow, false, 1, T(Ident("repeat"), T(Less, FmtEndpoint(count, T(Greater, W(" ", FmtRef(r, k)))))))
  {
    hide Spaced, ContinuesName, FmtRef;
    var token := if count.Variable? then Token.Variable(count.name) else Token.Int(count.value);
    var rest := W(" ", FmtRef(r, k));
    assert FmtEndpoint(count, T(Greater, rest)) == T(token, T(Greater, rest));
    RefSpaced(Greater, 1, r, k);
    Blank(Greater, FmtRef(r, k));
    Put(token, true, 0, Greater, rest);
    Put(Less, true, 0, token, T(Greater, rest));
    Put(Ident("repeat"), false, 0, Less, T(token, T(Greater, rest)));
    Put(Arrow, false, 1, Ident("repeat"), T(Less, T(token, T(Greater, rest))));
  }

  lemma FaultMapSpaced(r: NodeRef, ok: string, fault: string, k: Text)
    requires WfRef(r) && Continues(k)
    ensures Spaced(Arrow, false, 1, T(Ident("fault"), W(" ", FmtFaultMap(r, ok, fault, k))))
  {
    hide Spaced, Continues, ContinuesName, FmtRef;
    At(RBrace, k);
    PutBlank(Token.Variable(fault), RBrace, k);
    var t1 := T(Token.Variable(fault), W(" ", T(RBrace, k)));
    PutBlank(Arrow, Token.Variable(fault), W(" ", T(RBrace, k)));
    var t2 := T(Arrow, W(" ", t1));
    PutBlank(Ident("fault"), Arrow, W(" ", t1));
    var t3 := T(Ident("fault"), W(" ", t2));
    PutBlank(Comma, Ident("fault"), W(" ", t2));
    Put(Token.Variable(ok), false, 0, Comma, W(" ", t3));
    var t4 := T(Token.Variable(ok), T(Comma, W(" ", t3)));
    PutBlank(Arrow, Token.Variable(ok), T(Comma, W(" ", t3)));
    var t5 := T(Arrow, W(" ", t4));
    PutBlank(Ident("ok"), Arrow, W(" ", t4));
    var t6 := T(Ident("ok"), W(" ", t5));
    PutBlank(LBrace, Ident("ok"), W(" ", t5));
    Goes(LBrace, W(" ", t6));
    NamesContinue(W(" ", T(LBrace, W(" ", t6))));
    var map_ := FmtRef(r, W(" ", T(LBrace, W(" ", t6))));
    RefSpaced(Ident("map"), 1, r, W(" ", T(LBrace, W(" ", t6))));
    Blank(Ident("map"), map_);
    PutBlank(Ident("fault"), Ident("map"), W(" ", map_));
    Put(Arrow, false, 1, Ident("fault"), W(" ", T(Ident("map"), W(" ", map_))));
  }

  lemma {:induction false} IdentitySpaced(identity: Endpoint, k: Text)
    requires WfInline(identity) && Continues(k)
    ensures ContinuesName(FmtIdentity(identity, k))
    decreases identity, 1
  {
    hide Spaced;
    At(RParen, k);
    Closes(RParen, k);
    EndpointSpaced(Colon, 1, identity, T(RParen, k));
    var inner := FmtEndpoint(identity, T(RParen, k));
    FieldSpaced(LParen, "identity", inner);
    ParenthesisFollows(T(Ident("identity"), T(Colon, W(" ", inner))));
  }

  lemma ParenthesisFollows(k: Text)
    requires Spaced(LParen, false, 0, k)
    ensures ContinuesName(T(LParen, k))
  {
    hide Spaced;
    forall t: Token | t.Ident? || t.Greater?
      ensures Spaced(t, false, 0, T(LParen, k))
    {
      Put(t, false, 0, LParen, k);
    }
  }

  lemma {:induction false} TargetSpaced(prev: Token, gap: nat, t: BindingTarget, k: Text)
    requires WfTarget(t) && Opens(prev, gap) && Continues(k)
    ensures Spaced(prev, false, gap, FmtTarget(t, k))
    decreases t, 0
  {
    hide Spaced, Opens, Continues;
    match t
    case Drop => Literal(prev, gap, Discard, k);
    case Bound(n) => Literal(prev, gap, Token.Variable(n), k);
    case Both(items) =>
      TargetsSpaced(LParen, items, k);
      First(prev, gap, LParen, FmtTargets(items, T(RParen, k)));
  }

  lemma {:induction false} TargetsSpaced(prev: Token, items: seq<BindingTarget>, k: Text)
    requires WfTargets(items) && items != [] && (prev.LParen? || prev.Comma?) && Continues(k)
    ensures Spaced(prev, false, if prev.Comma? then 1 else 0, FmtTargets(items, T(RParen, k)))
    decreases items, 1
  {
    hide Spaced;
    At(RParen, k);
    Closes(RParen, k);
    var rest := T(RParen, k);
    if |items| > 1 {
      TargetsSpaced(Comma, items[1..], k);
      Blank(Comma, FmtTargets(items[1..], T(RParen, k)));
      Closes(Comma, W(" ", FmtTargets(items[1..], T(RParen, k))));
      rest := T(Comma, W(" ", FmtTargets(items[1..], T(RParen, k))));
    }
    TargetSpaced(prev, if prev.Comma? then 1 else 0, items[0], rest);
  }

  // ---- Arms ----

  lemma {:induction false} ArmsSpaced(prev: Token, arms: seq<MatchArm>, k: Text)
    requires WfArms(arms) && Continues(k) && (prev.LBrace? || IsLast(prev))
    ensures Spaced(prev, false, 1, FmtArms(arms, W(" ", T(RBrace, k))))
    decreases arms, 1
  {
    hide Spaced;
    var end := W(" ", T(RBrace, k));
    At(RBrace, k);
    Goes(RBrace, k);
    var rest := end;
    if |arms| > 1 {
      rest := W(" ", FmtArms(arms[1..], end));
      forall t | IsLast(t)
        ensures Spaced(t, false, 0, rest)
      {
        ArmsSpaced(t, arms[1..], k);
        Blank(t, FmtArms(arms[1..], end));
      }
    }
    ArmSpaced(prev, arms[0], rest);
  }

  lemma {:induction false} ArmSpaced(prev: Token, arm: MatchArm, k: Text)
    requires WfArm(arm) && Continues(k) && (prev.LBrace? || IsLast(prev))
    ensures Spaced(prev, false, 1, FmtArm(arm, k))
    decreases arm, 1
  {
    hide Spaced, Continues;
    var target := FmtMatchTarget(arm.target, k);
    MatchTargetSpaced(arm.target, k);
    Blank(Arrow, target);
    Goes(Arrow, W(" ", target));
    GuardSpaced(prev, arm.guard, W(" ", T(Arrow, W(" ", target))));
  }

  lemma {:induction false} MatchTargetSpaced(t: MatchTarget, k: Text)
    requires WfMatchTarget(t) && Continues(k)
    ensures Spaced(Arrow, false, 1, FmtMatchTarget(t, k))
    decreases t, 1
  {
    hide Spaced, Continues;
    match t {
      case ToNode(r) =>
        NamesContinue(k);
        RefSpaced(Arrow, 1, r, k);
      case ToValue(e) => EndpointSpaced(Arrow, 1, e, k);
    }
  }

  lemma {:induction false} GuardSpaced(prev: Token, g: MatchGuard, k: Text)
    requires WfGuard(g) && Continues(k) && (prev.LBrace? || IsLast(prev))
    ensures Spaced(prev, false, 1, FmtGuard(g, k))
    decreases g, 1
  {
    hide Spaced, Continues;
    match g {
      case Fallback =>
        At(Ident("_"), k);
        Put(prev, false, 1, Ident("_"), k);
      case Call(r, args) =>
        ItemsSpaced(LParen, args, RParen, k);
        ParenthesisFollows(FmtItems(args, T(RParen, k)));
        RefSpaced(prev, 1, r, T(LParen, FmtItems(args, T(RParen, k))));
    }
  }

  /** Every part of a chain, as it stands behind an arrow, has its blanks where they belong. */
  lemma PartsAreSpaced(c: Chain, j: nat)
    requires WfChain(c) && j <= |c.stages|
    ensures Spaced(Arrow, false, 1, FmtPart(c, j, End))
  {
    assert Continues(End);
    if j == 0 {
      EndpointSpaced(Arrow, 1, c.source, End);
    } else {
      StageAt(c.stages, j - 1);
      StageSpaced(c.stages[j - 1], End);
    }
  }

  lemma {:induction false} StageAt(stages: seq<Stage>, i: nat)
    requires WfStages(stages) && i < |stages|
    ensures WfStage(stages[i])
  {
    if i > 0 { StageAt(stages[1..], i - 1); }
  }

  // ---- The text is determined by its tokens ----

  lemma MoreSpaces(n: nat, k: Text)
    ensures Spaces(n + 1) + Render(k) == Spaces(n) + Render(W(" ", k))
  {
    assert Spaces(n + 1) == Spaces(n) + " ";
    assert Render(W(" ", k)) == " " + Render(k);
  }

  lemma SameToken(token: Token, t: Text, u: Text)
    requires Spaces(0) + Render(t) == Spaces(0) + Render(u)
    ensures Render(T(token, t)) == Render(T(token, u))
  {
    assert Spaces(0) + Render(t) == Render(t) && Spaces(0) + Render(u) == Render(u);
  }

  /** Two texts with the same tokens, both with their blanks where they belong, are the same characters. */
  lemma {:induction false} SpacingIsUnique(prev: Token, angle: bool, n: nat, t: Text, m: nat, u: Text)
    requires Spaced(prev, angle, n, t) && Spaced(prev, angle, m, u)
    requires TokensOf(t, Nil) == TokensOf(u, Nil)
    ensures Spaces(n) + Render(t) == Spaces(m) + Render(u)
    decreases t, u
  {
    hide Render, Gap;
    if t.W? {
      SpacingIsUnique(prev, angle, n + 1, t.rest, m, u);
      MoreSpaces(n, t.rest);
    } else if u.W? {
      SpacingIsUnique(prev, angle, n, t, m + 1, u.rest);
      MoreSpaces(m, u.rest);
    } else if t.T? && u.T? {
      SpacingIsUnique(t.token, t.token == Less || (angle && t.token != Greater), 0, t.rest, 0, u.rest);
      SameToken(t.token, t.rest, u.rest);
    }
  }
}
