/** No two tokens of a formatted tree run into each other. */
module FormatSafety {
  import opened Tokens
  import opened Ast
  import Lexer
  import opened Parsing
  import opened WellFormed
  import opened Rendering
  import opened Comments
  import opened Formatting

  // ---- Types whose tokens stay apart ----

  /** Two tokens that are lexed as one when there is nothing between them. */
  predicate Joins(t: Token, u: Token)
  {
    (t.Ident? && (u.Ident? || (u.Int? && u.value >= 0))) || (t.Int? && u.Int? && u.value >= 0)
  }

  /** A number, a point and digits, which are lexed as a real number. */
  predicate IsPoint(t: Token, u: Token, v: Token) { t.Int? && u == Dot && v.Int? && v.value >= 0 }

  /** No tokens of an annotation are lexed as one when it is printed. */
  predicate Apart(ty: TypeText)
  {
    && (forall i :: 0 <= i < |ty| - 1 ==> !Joins(ty[i], ty[i + 1]))
    && (forall i :: 0 <= i < |ty| - 2 ==> !IsPoint(ty[i], ty[i + 1], ty[i + 2]))
  }

  predicate PortsApart(ps: seq<Port>) { forall i :: 0 <= i < |ps| ==> Apart(ps[i].ty) }

  predicate CallableApart(c: Callable)
  {
    && PortsApart(c.inputs)
    && PortsApart(c.outputs)
    && forall i :: 0 <= i < |c.nodeParams| ==> Apart(c.nodeParams[i].input) && Apart(c.nodeParams[i].output)
  }

  predicate DeclApart(d: Decl)
  {
    match d
    case TypeAlias(_, ty) => Apart(ty)
    case StructDecl(_, fields) => PortsApart(fields)
    case Import(_, _) => true
    case Foreign(_, _, nodes) =>
      forall i :: 0 <= i < |nodes| ==> PortsApart(nodes[i].inputs) && PortsApart(nodes[i].outputs)
    case Node(c) => CallableApart(c)
    case Program(c) => CallableApart(c)
  }

  predicate ModuleApart(m: Module)
  {
    forall i :: 0 <= i < |m.declarations| ==> DeclApart(m.declarations[i])
  }

  // ---- What may follow ----

  /** What may follow an endpoint or a stage, which can end in a discard. */
  predicate After(k: Text)
  {
    Parted(k) || (k.T? && (k.token == Comma || k.token == RParen || k.token == RBrace || k.token == RBracket))
  }

  predicate AfterName(k: Text) { Parted(k) || (k.T? && IsPunctuation(k.token)) }

  predicate AfterType(k: Text) { Parted(k) || (k.T? && IsPunctuation(k.token) && k.token != Dot) }

  /** Lets the verifier check a text as far as it is spelled out. */
  lemma Unfold(strict: bool)
    ensures forall token, rest ::
              Laid(strict, T(token, rest)) <==>
              Lexable(token) && (Leads(token, rest) || (!strict && Runs(token, rest))) && Laid(strict, rest)
    ensures forall gap, rest :: Laid(strict, W(gap, rest)) <==> IsGap(gap) && Laid(strict, rest)
    ensures Laid(strict, End)
    ensures IsGap(" ") && IsGap("\n") && IsGap(INDENT) && IsGap(INDENT + INDENT)
  {
    BlankSkips(" ");
    BlankSkips("\n");
    BlankSkips(INDENT);
    BlankSkips(INDENT + INDENT);
  }

  // ---- Names and types ----

  lemma {:induction false} SegmentsSafe(strict: bool, q: QName, k: Text)
    requires (q == [] || WfQName(q)) && Laid(strict, k) && AfterName(k)
    ensures Laid(strict, FmtSegments(q, k)) && AfterName(FmtSegments(q, k))
  {
    Unfold(strict);
    hide Laid, Runs, IsGap;
    if q != [] {
      SegmentsSafe(strict, q[1..], k);
    }
  }

  lemma QNameSafe(strict: bool, q: QName, k: Text)
    requires WfQName(q) && Laid(strict, k) && AfterName(k)
    ensures Laid(strict, FmtQName(q, k))
  {
    Unfold(strict);
    hide Laid, Runs, IsGap;
    SegmentsSafe(strict, q[1..], k);
  }

  lemma {:induction false} ArgsSafe(strict: bool, args: seq<QName>, k: Text)
    requires (forall i :: 0 <= i < |args| ==> WfQName(args[i])) && Laid(strict, k) && AfterName(k)
    ensures Laid(strict, FmtArgs(args, k))
  {
    Unfold(strict);
    hide Laid, Runs, IsGap;
    if |args| == 1 {
      QNameSafe(strict, args[0], k);
    } else if args != [] {
      ArgsSafe(strict, args[1..], k);
      QNameSafe(strict, args[0], T(Comma, FmtArgs(args[1..], k)));
    }
  }

  lemma RefSafe(strict: bool, r: NodeRef, k: Text)
    requires WfRef(r) && Laid(strict, k) && AfterName(k)
    ensures Laid(strict, FmtRef(r, k))
  {
    Unfold(strict);
    hide Laid, Runs, IsGap;
    if r.args == [] {
      QNameSafe(strict, r.base, k);
    } else {
      ArgsSafe(strict, r.args, T(Greater, k));
      QNameSafe(strict, r.base, T(Less, FmtArgs(r.args, T(Greater, k))));
    }
  }

  lemma {:induction false} TypeTailSafe(strict: bool, empty: bool, depth: nat, ty: TypeText, k: Text)
    requires TypeReads(empty, depth, ty) && (strict ==> Apart(ty)) && Laid(strict, k) && AfterType(k)
    ensures Laid(strict, FmtTypeTail(ty, k))
    decreases |ty|
  {
    if ty != [] {
      if |ty| > 1 {
        if strict { ApartTail(ty); }
        TypeTailSafe(strict, false, DepthAfter(depth, ty[0]), ty[1..], k);
        TailLeads(strict, empty, depth, ty, k);
      }
      hide Apart, Leads, Runs;
      Unfold(strict);
      hide Laid;
    }
  }

  lemma ApartTail(ty: TypeText)
    requires Apart(ty) && |ty| > 1
    ensures Apart(ty[1..])
  {
    assert forall i :: 0 <= i < |ty| - 1 ==> ty[1..][i] == ty[i + 1];
  }

  lemma TailLeads(strict: bool, empty: bool, depth: nat, ty: TypeText, k: Text)
    requires TypeReads(empty, depth, ty) && (strict ==> Apart(ty)) && AfterType(k) && |ty| > 1
    ensures var rest := FmtTypeTail(ty[1..], k); BlankBetween(ty[0], ty[1]) || Leads(ty[0], rest) || (!strict && Runs(ty[0], rest))
  {
    var ty1 := ty[1..];
    assert ty1[0] == ty[1] && TypeReads(false, DepthAfter(depth, ty[0]), ty1);
    if |ty| > 2 {
      var ty2 := ty1[1..];
      assert ty2[0] == ty[2] && TypeReads(false, DepthAfter(DepthAfter(depth, ty[0]), ty1[0]), ty2);
      DigitsAreInts(ty2, k);
      if strict { assert !Joins(ty[0], ty[1]) && !IsPoint(ty[0], ty[1], ty[2]); }
    } else {
      if strict { assert !Joins(ty[0], ty[1]); }
    }
  }

  lemma DigitsAreInts(ty: TypeText, k: Text)
    requires ty != [] && Lexable(ty[0]) && (ty[0].Ident? || ty[0].Int? || IsPunctuation(ty[0]))
    ensures DigitFirst(FmtTypeTail(ty, k)) ==> ty[0].Int? && ty[0].value >= 0
  {}

  lemma TypeSafe(strict: bool, ty: TypeText, k: Text)
    requires WfType(ty) && (strict ==> Apart(ty)) && Laid(strict, k) && AfterType(k)
    ensures Laid(strict, FmtType(ty, k))
  {
    Unfold(strict);
    hide Laid, Runs, IsGap;
    TypeTailSafe(strict, true, 0, ty, k);
  }

  // ---- Endpoints, stages and arms ----

  lemma {:induction false} AtomSafe(strict: bool, e: Endpoint, k: Text)
    requires WfAtom(e) && Laid(strict, k) && After(k)
    ensures Laid(strict, FmtEndpoint(e, k))
    decreases e, 0
  {
    Unfold(strict);
    hide Laid, Runs, IsGap;
    hide FmtItems, FmtFields, WfItems, WfFields;
    match e
    case Tuple(items) => ItemsSafe(strict, items, T(RParen, k));
    case Seq(items) => ItemsSafe(strict, items, T(RBracket, k));
    case Struct(n, fields) =>
      FieldsSafe(strict, fields, W(" ", T(RBrace, k)));
      WordSafe(strict, n, T(LBrace, W(" ", FmtFields(fields, W(" ", T(RBrace, k))))));
    case _ => LiteralSafe(strict, e, k);
  }

  lemma LiteralSafe(strict: bool, e: Endpoint, k: Text)
    requires WfAtom(e) && Laid(strict, k) && After(k) && !e.Tuple? && !e.Seq? && !e.Struct?
    ensures Laid(strict, FmtEndpoint(e, k))
  {
    Unfold(strict);
    hide Laid, Runs, IsWord, IsRealText, IsI64;
  }

  /** A repeat count is followed by `>`. */
  lemma CountSafe(strict: bool, e: Endpoint, k: Text)
    requires (e.Variable? || e.Int?) && WfAtom(e) && Laid(strict, k)
    ensures Laid(strict, FmtEndpoint(e, T(Greater, k)))
  {
    Unfold(strict);
    hide Laid, Runs, IsGap;
  }

  lemma {:induction false} InlineSafe(strict: bool, e: Endpoint, k: Text)
    requires WfInline(e) && Laid(strict, k) && After(k)
    ensures Laid(strict, FmtEndpoint(e, k))
    decreases e, 1
  {
    if e.Eval? {
      StagesSafe(strict, e.stages, k);
      AtomSafe(strict, e.source, FmtStages(e.stages, k));
    } else {
      AtomSafe(strict, e, k);
    }
  }

  lemma {:induction false} ItemsSafe(strict: bool, items: seq<Endpoint>, k: Text)
    requires WfItems(items) && Laid(strict, k) && After(k)
    ensures Laid(strict, FmtItems(items, k))
    decreases items
  {
    Unfold(strict);
    hide Laid, Runs, IsGap;
    if |items| == 1 {
      InlineSafe(strict, items[0], k);
    } else if items != [] {
      ItemsSafe(strict, items[1..], k);
      InlineSafe(strict, items[0], T(Comma, W(" ", FmtItems(items[1..], k))));
    }
  }

  lemma FieldSafe(strict: bool, f: Field, k: Text)
    requires IsIdent(f.name) && Laid(strict, FmtEndpoint(f.value, k))
    ensures Laid(strict, FmtField(f, k))
  {
    Unfold(strict);
    hide Laid, Runs, IsGap;
  }

  lemma {:induction false} FieldsSafe(strict: bool, fields: seq<Field>, k: Text)
    requires WfFields(fields) && Laid(strict, k) && After(k)
    ensures Laid(strict, FmtFields(fields, k))
    decreases fields
  {
    Unfold(strict);
    hide Laid, Runs, IsGap;
    if fields != [] {
      var after := if |fields| == 1 then k else T(Comma, W(" ", FmtFields(fields[1..], k)));
      if |fields| > 1 {
        FieldsSafe(strict, fields[1..], k);
      }
      InlineSafe(strict, fields[0].value, after);
      FieldSafe(strict, fields[0], after);
    }
  }

  lemma {:induction false} StagesSafe(strict: bool, stages: seq<Stage>, k: Text)
    requires WfStages(stages) && Laid(strict, k) && After(k)
    ensures Laid(strict, FmtStages(stages, k)) && After(FmtStages(stages, k))
    decreases stages
  {
    Unfold(strict);
    hide Laid, Runs, IsGap;
    if stages != [] {
      StagesSafe(strict, stages[1..], k);
      StageSafe(strict, stages[0], FmtStages(stages[1..], k));
    }
  }

  lemma RepeatSafe(strict: bool, count: Endpoint, r: NodeRef, k: Text)
    requires WfStage(Repeat(count, r)) && Laid(strict, k) && After(k)
    ensures Laid(strict, FmtStage(Repeat(count, r), k))
  {
    hide FmtRef, FmtEndpoint, WfRef, WfAtom;
    Unfold(strict);
    hide Laid, Runs, IsGap;
    RefSafe(strict, r, k);
    CountSafe(strict, count, W(" ", FmtRef(r, k)));
  }

  lemma {:induction false} StageSafe(strict: bool, s: Stage, k: Text)
    requires WfStage(s) && Laid(strict, k) && After(k)
    ensures Laid(strict, FmtStage(s, k))
    decreases s, 0
  {
    hide FmtRef, FmtEndpoint, FmtTarget, FmtArms, FmtFaultMap, FmtIdentity, WfRef, WfTarget, WfArms, WfAtom;
    match s
    case Value(e) =>
      if e.Name? {
        NameSafe(strict, e.node, k);
      } else {
        AtomSafe(strict, e, k);
      }
    case Bind(t) => TargetSafe(strict, t, k);
    case FieldOf(n) =>
      Unfold(strict);
      hide Laid, Runs, IsGap;
    case Repeat(count, r) => RepeatSafe(strict, count, r, k);
    case Reduce(r, identity) =>
      IdentitySafe(strict, identity, k);
      RefSafe(strict, r, FmtIdentity(identity, k));
      WordSafe(strict, "reduce", FmtRef(r, FmtIdentity(identity, k)));
    case Scan(r, identity) =>
      IdentitySafe(strict, identity, k);
      RefSafe(strict, r, FmtIdentity(identity, k));
      WordSafe(strict, "scan", FmtRef(r, FmtIdentity(identity, k)));
    case Match(arms) => MatchSafe(strict, arms, k);
    case FaultMap(r, ok, fault) =>
      FaultMapSafe(strict, r, ok, fault, k);
      WordSafe(strict, "fault", FmtFaultMap(r, ok, fault, k));
    case Map(r) =>
      RefSafe(strict, r, k);
      WordSafe(strict, "map", FmtRef(r, k));
    case Filter(r) =>
      RefSafe(strict, r, k);
      WordSafe(strict, "filter", FmtRef(r, k));
  }

  lemma NameSafe(strict: bool, r: NodeRef, k: Text)
    requires WfRef(r) && Laid(strict, k) && After(k)
    ensures Laid(strict, FmtEndpoint(Name(r), k))
  {
    RefSafe(strict, r, k);
  }

  lemma WordSafe(strict: bool, word: string, k: Text)
    requires IsIdent(word) && Laid(strict, k)
    ensures Laid(strict, T(Ident(word), W(" ", k)))
  {
    Unfold(strict);
    hide Laid, Runs, IsGap;
  }

  lemma {:induction false} MatchSafe(strict: bool, arms: seq<MatchArm>, k: Text)
    requires WfArms(arms) && Laid(strict, k)
    ensures Laid(strict, FmtStage(Match(arms), k))
    decreases arms, 1
  {
    hide FmtArms, WfArms;
    Unfold(strict);
    hide Laid, Runs, IsGap;
    ArmsSafe(strict, arms, W(" ", T(RBrace, k)));
  }

  lemma FaultMapSafe(strict: bool, r: NodeRef, ok: string, fault: string, k: Text)
    requires WfRef(r) && IsWord(ok) && IsWord(fault) && Laid(strict, k)
    ensures Laid(strict, FmtFaultMap(r, ok, fault, k))
  {
    hide FmtRef, WfRef, IsWord;
    var faultPart := T(Ident("fault"), W(" ", T(Arrow, W(" ", T(Token.Variable(fault), W(" ", T(RBrace, k)))))));
    var okPart := T(Ident("ok"), W(" ", T(Arrow, W(" ", T(Token.Variable(ok), T(Comma, W(" ", faultPart)))))));
    KeywordIsIdent();
    Unfold(strict);
    hide Laid, Runs, IsGap;
    OutcomeSafe(strict, "fault", fault, W(" ", T(RBrace, k)));
    OutcomeSafe(strict, "ok", ok, T(Comma, W(" ", faultPart)));
    RefSafe(strict, r, W(" ", T(LBrace, W(" ", okPart))));
    WordSafe(strict, "map", FmtRef(r, W(" ", T(LBrace, W(" ", okPart)))));
  }

  lemma KeywordIsIdent()
    ensures IsIdent("map")
  {}

  lemma OutcomeSafe(strict: bool, word: string, v: string, k: Text)
    requires word in {"ok", "fault"} && IsWord(v) && Laid(strict, k) && AfterName(k)
    ensures Laid(strict, T(Ident(word), W(" ", T(Arrow, W(" ", T(Token.Variable(v), k))))))
  {
    Unfold(strict);
    hide Laid, Runs, IsGap;
    assert IsIdent(word);
  }

  lemma {:induction false} IdentitySafe(strict: bool, identity: Endpoint, k: Text)
    requires WfAtom(identity) && Laid(strict, k)
    ensures Laid(strict, FmtIdentity(identity, k)) && AfterName(FmtIdentity(identity, k))
    decreases identity, 1
  {
    Unfold(strict);
    hide Laid, Runs, IsGap;
    AtomSafe(strict, identity, T(RParen, k));
  }

  lemma {:induction false} TargetSafe(strict: bool, t: BindingTarget, k: Text)
    requires WfTarget(t) && Laid(strict, k) && After(k)
    ensures Laid(strict, FmtTarget(t, k))
    decreases t
  {
    Unfold(strict);
    hide Laid, Runs, IsGap;
    if t.Both? {
      TargetsSafe(strict, t.items, T(RParen, k));
    }
  }

  lemma {:induction false} TargetsSafe(strict: bool, items: seq<BindingTarget>, k: Text)
    requires WfTargets(items) && Laid(strict, k) && After(k)
    ensures Laid(strict, FmtTargets(items, k))
    decreases items
  {
    Unfold(strict);
    hide Laid, Runs, IsGap;
    if |items| == 1 {
      TargetSafe(strict, items[0], k);
    } else if items != [] {
      TargetsSafe(strict, items[1..], k);
      TargetSafe(strict, items[0], T(Comma, W(" ", FmtTargets(items[1..], k))));
    }
  }

  lemma {:induction false} ArmsSafe(strict: bool, arms: seq<MatchArm>, k: Text)
    requires WfArms(arms) && Laid(strict, k) && Parted(k)
    ensures Laid(strict, FmtArms(arms, k))
    decreases arms, 0
  {
    Unfold(strict);
    hide Laid, Runs, IsGap;
    if |arms| == 1 {
      ArmSafe(strict, arms[0], k);
    } else {
      ArmsSafe(strict, arms[1..], k);
      ArmSafe(strict, arms[0], W(" ", FmtArms(arms[1..], k)));
    }
  }

  lemma {:induction false} ArmSafe(strict: bool, arm: MatchArm, k: Text)
    requires WfArm(arm) && Laid(strict, k) && After(k)
    ensures Laid(strict, FmtArm(arm, k))
    decreases arm, 1
  {
    Unfold(strict);
    hide Laid, Runs, IsGap;
    match arm.target {
      case ToNode(r) => RefSafe(strict, r, k);
      case ToValue(e) => InlineSafe(strict, e, k);
    }
    GuardSafe(strict, arm.guard, W(" ", T(Arrow, W(" ", FmtMatchTarget(arm.target, k)))));
  }

  lemma {:induction false} GuardSafe(strict: bool, g: MatchGuard, k: Text)
    requires WfGuard(g) && Laid(strict, k) && Parted(k)
    ensures Laid(strict, FmtGuard(g, k))
    decreases g, 1
  {
    Unfold(strict);
    hide Laid, Runs, IsGap;
    match g
    case Fallback =>
    case Call(r, args) =>
      ItemsSafe(strict, args, T(RParen, k));
      RefSafe(strict, r, T(LParen, FmtItems(args, T(RParen, k))));
  }

  // ---- Ports and parameters ----

  lemma PortSafe(strict: bool, p: Port, k: Text)
    requires WfPort(p) && (strict ==> Apart(p.ty)) && Laid(strict, k) && AfterType(k)
    ensures Laid(strict, FmtPort(p, k))
  {
    Unfold(strict);
    hide Laid, Runs, IsGap;
    TypeSafe(strict, p.ty, k);
  }

  lemma {:induction false} PortsSafe(strict: bool, ps: seq<Port>, k: Text)
    requires WfPorts(ps) && (strict ==> PortsApart(ps)) && Laid(strict, k) && AfterType(k)
    ensures Laid(strict, FmtPorts(ps, k))
  {
    Unfold(strict);
    hide Laid, Runs, IsGap;
    hide FmtPort, WfPort, Apart;
    if |ps| == 1 {
      PortSafe(strict, ps[0], k);
    } else if ps != [] {
      PortsSafe(strict, ps[1..], k);
      PortSafe(strict, ps[0], T(Comma, W(" ", FmtPorts(ps[1..], k))));
    }
  }

  lemma PortOrListSafe(strict: bool, ps: seq<Port>, k: Text)
    requires WfPorts(ps) && (strict ==> PortsApart(ps)) && Laid(strict, k) && AfterType(k)
    ensures Laid(strict, FmtPortOrList(ps, k))
  {
    Unfold(strict);
    hide Laid, Runs, IsGap;
    if |ps| == 1 {
      PortSafe(strict, ps[0], k);
    } else {
      PortsSafe(strict, ps, T(RParen, k));
    }
  }

  lemma InputsSafe(strict: bool, ps: seq<Port>, k: Text)
    requires WfPorts(ps) && (strict ==> PortsApart(ps)) && Laid(strict, k)
    ensures Laid(strict, FmtInputs(ps, k)) && AfterName(FmtInputs(ps, k))
  {
    Unfold(strict);
    hide Laid, Runs, IsGap;
    PortsSafe(strict, ps, T(RParen, k));
  }

  lemma ParamSafe(strict: bool, p: NodeParam, k: Text)
    requires WfParam(p) && (strict ==> Apart(p.input)) && (strict ==> Apart(p.output)) && Laid(strict, k) && AfterType(k)
    ensures Laid(strict, FmtParam(p, k))
  {
    hide FmtType, WfType, Apart;
    Unfold(strict);
    hide Laid, Runs, IsGap;
    TypeSafe(strict, p.output, k);
    TypeSafe(strict, p.input, T(RParen, W(" ", T(Arrow, W(" ", FmtType(p.output, k))))));
  }

  lemma {:induction false} ParamListSafe(strict: bool, ps: seq<NodeParam>, k: Text)
    requires forall i :: 0 <= i < |ps| ==>
               WfParam(ps[i]) && (strict ==> Apart(ps[i].input)) && (strict ==> Apart(ps[i].output))
    requires Laid(strict, k) && AfterType(k)
    ensures Laid(strict, FmtParamList(ps, k))
  {
    Unfold(strict);
    hide Laid, Runs, IsGap;
    hide FmtParam, WfParam, Apart;
    if |ps| == 1 {
      ParamSafe(strict, ps[0], k);
    } else if ps != [] {
      ParamListSafe(strict, ps[1..], k);
      ParamSafe(strict, ps[0], T(Comma, W(" ", FmtParamList(ps[1..], k))));
    }
  }

  // ---- Declarations without chains ----

  lemma {:induction false} StructLinesSafe(strict: bool, ps: seq<Port>, k: Text)
    requires WfPorts(ps) && (strict ==> PortsApart(ps)) && Laid(strict, k)
    ensures Laid(strict, FmtStructLines(ps, k))
  {
    Unfold(strict);
    hide Laid, Runs, IsGap;
    hide FmtPort, WfPort, Apart;
    if ps != [] {
      StructLinesSafe(strict, ps[1..], k);
      PortSafe(strict, ps[0], T(Comma, NewLine(FmtStructLines(ps[1..], k))));
    }
  }

  lemma SourceSafe(strict: bool, s: ImportSource, k: Text)
    requires (s.FromModule? ==> WfQName(s.path)) && Laid(strict, k) && Parted(k)
    ensures Laid(strict, FmtSource(s, k))
  {
    Unfold(strict);
    hide Laid, Runs, IsGap;
    if s.FromModule? {
      QNameSafe(strict, s.path, k);
    }
  }

  lemma ItemSafe(strict: bool, i: ImportItem, k: Text)
    requires WfItem(i) && Laid(strict, k) && After(k)
    ensures Laid(strict, FmtItem(i, k))
  {
    Unfold(strict);
    hide Laid, Runs, IsGap;
  }

  lemma {:induction false} ImportItemsSafe(strict: bool, items: seq<ImportItem>, k: Text)
    requires (forall i :: 0 <= i < |items| ==> WfItem(items[i])) && Laid(strict, k) && After(k)
    ensures Laid(strict, FmtImportItems(items, k))
  {
    Unfold(strict);
    hide Laid, Runs, IsGap;
    hide FmtItem, WfItem;
    if |items| == 1 {
      ItemSafe(strict, items[0], k);
    } else if items != [] {
      ImportItemsSafe(strict, items[1..], k);
      ItemSafe(strict, items[0], T(Comma, W(" ", FmtImportItems(items[1..], k))));
    }
  }

  lemma {:induction false} ImportLinesSafe(strict: bool, items: seq<ImportItem>, k: Text)
    requires (forall i :: 0 <= i < |items| ==> WfItem(items[i])) && Laid(strict, k)
    ensures Laid(strict, FmtImportLines(items, k))
  {
    Unfold(strict);
    hide Laid, Runs, IsGap;
    hide FmtItem, WfItem;
    if items != [] {
      ImportLinesSafe(strict, items[1..], k);
      ItemSafe(strict, items[0], T(Comma, NewLine(FmtImportLines(items[1..], k))));
    }
  }

  lemma ImportSafe(strict: bool, source: ImportSource, clause: ImportClause)
    requires WfDecl(Import(source, clause))
    ensures Laid(strict, FmtImport(source, clause, End))
  {
    hide FitsLine, WfItem, WfQName, FmtSource, FmtImportItems, FmtImportLines;
    Unfold(strict);
    hide Laid, Runs, IsGap;
    match clause
    case As(alias) => ImportHeadSafe(strict, source, T(Ident("as"), W(" ", T(Ident(alias), NewLine(End)))));
    case Items(items) =>
      if FitsLine(source, items) {
        ImportItemsSafe(strict, items, W(" ", T(RBrace, NewLine(End))));
        ImportHeadSafe(strict, source, T(LBrace, W(" ", FmtImportItems(items, W(" ", T(RBrace, NewLine(End)))))));
      } else {
        ImportLinesSafe(strict, items, T(RBrace, NewLine(End)));
        ImportHeadSafe(strict, source, T(LBrace, NewLine(FmtImportLines(items, T(RBrace, NewLine(End))))));
      }
  }

  lemma ImportHeadSafe(strict: bool, source: ImportSource, k: Text)
    requires (source.FromModule? ==> WfQName(source.path)) && Laid(strict, k)
    ensures Laid(strict, FmtImportHead(source, k))
  {
    hide FmtSource, WfQName;
    Unfold(strict);
    hide Laid, Runs, IsGap;
    SourceSafe(strict, source, W(" ", k));
    WordSafe(strict, "import", FmtSource(source, W(" ", k)));
  }

  lemma ForeignNodeSafe(strict: bool, n: ForeignNode, k: Text)
    requires WfForeignNode(n) && (strict ==> PortsApart(n.inputs)) && (strict ==> PortsApart(n.outputs))
             && Laid(strict, k) && Parted(k)
    ensures Laid(strict, FmtForeignNode(n, k))
  {
    Unfold(strict);
    hide Laid, Runs, IsGap;
    hide FmtInputs, FmtPortOrList, FmtQName, WfPorts, PortsApart, WfQName;
    var result := W(" ", T(Equal, W(" ", FmtQName(n.symbol, k))));
    QNameSafe(strict, n.symbol, k);
    PortOrListSafe(strict, n.outputs, result);
    InputsSafe(strict, n.inputs, W(" ", T(Arrow, W(" ", FmtPortOrList(n.outputs, result)))));
  }

  lemma {:induction false} ForeignLinesSafe(strict: bool, ns: seq<ForeignNode>, k: Text)
    requires forall i :: 0 <= i < |ns| ==>
               WfForeignNode(ns[i]) && (strict ==> PortsApart(ns[i].inputs)) && (strict ==> PortsApart(ns[i].outputs))
    requires Laid(strict, k)
    ensures Laid(strict, FmtForeignLines(ns, k))
  {
    Unfold(strict);
    hide Laid, Runs, IsGap;
    hide FmtForeignNode, WfForeignNode, PortsApart;
    if ns != [] {
      ForeignLinesSafe(strict, ns[1..], k);
      ForeignNodeSafe(strict, ns[0], NewLine(FmtForeignLines(ns[1..], k)));
    }
  }

  lemma ForeignHeadSafe(strict: bool, language: ForeignTarget, origin: ForeignSource, k: Text)
    requires Laid(strict, k) && Parted(k)
    ensures Laid(strict, FmtForeignHead(language, origin, k))
  {
    Unfold(strict);
    hide Laid, Runs, IsGap;
  }

  lemma ForeignSafe(strict: bool, language: ForeignTarget, origin: ForeignSource, nodes: seq<ForeignNode>)
    requires WfDecl(Foreign(language, origin, nodes)) && (strict ==> DeclApart(Foreign(language, origin, nodes)))
    ensures Laid(strict, FmtForeign(language, origin, nodes, End))
  {
    hide WfForeignNode, PortsApart, FmtForeignHead, FmtForeignLines;
    Unfold(strict);
    hide Laid, Runs, IsGap;
    ForeignLinesSafe(strict, nodes, T(RBrace, NewLine(End)));
    var body := T(LBrace, NewLine(FmtForeignLines(nodes, T(RBrace, NewLine(End)))));
    ForeignHeadSafe(strict, language, origin, W(" ", body));
    WordSafe(strict, "foreign", FmtForeignHead(language, origin, W(" ", body)));
  }

  // ---- Chains ----

  lemma {:induction false} ArmLinesSafe(strict: bool, arms: seq<MatchArm>, k: Text)
    requires (forall i :: 0 <= i < |arms| ==> WfArm(arms[i])) && Laid(strict, k)
    ensures Laid(strict, FmtArmLines(arms, k))
  {
    Unfold(strict);
    hide Laid, Runs, IsGap;
    hide FmtArm, WfArm;
    if arms != [] {
      ArmLinesSafe(strict, arms[1..], k);
      ArmSafe(strict, arms[0], NewLine(FmtArmLines(arms[1..], k)));
    }
  }

  lemma {:induction false} EveryArm(arms: seq<MatchArm>)
    requires WfArms(arms)
    ensures forall i :: 0 <= i < |arms| ==> WfArm(arms[i])
  {
    if |arms| > 1 {
      EveryArm(arms[1..]);
      assert forall i :: 1 <= i < |arms| ==> arms[i] == arms[1..][i - 1];
    }
  }

  lemma {:induction false} StageLinesSafe(strict: bool, stages: seq<Stage>, k: Text)
    requires WfStages(stages) && Laid(strict, k)
    ensures Laid(strict, FmtStageLines(stages, k))
  {
    hide FmtStageLine, WfStage;
    if stages != [] {
      StageLinesSafe(strict, stages[1..], k);
      StageLineSafe(strict, stages[0], FmtStageLines(stages[1..], k));
    }
  }

  lemma StageLineSafe(strict: bool, s: Stage, k: Text)
    requires WfStage(s) && Laid(strict, k)
    ensures Laid(strict, FmtStageLine(s, k))
  {
    hide FmtStage, FmtArmLines, WfArms;
    Unfold(strict);
    hide Laid, Runs, IsGap;
    match s
    case Match(arms) =>
      EveryArm(arms);
      ArmLinesSafe(strict, arms, W(INDENT, T(RBrace, NewLine(k))));
    case _ => StageSafe(strict, s, NewLine(k));
  }

  lemma {:induction false} FieldLinesSafe(strict: bool, fields: seq<Field>, k: Text)
    requires WfFields(fields) && Laid(strict, k)
    ensures Laid(strict, FmtFieldLines(fields, k))
  {
    Unfold(strict);
    hide Laid, Runs, IsGap;
    hide FmtField, WfInline;
    if fields != [] {
      var after := if |fields| == 1 then NewLine(k) else T(Comma, NewLine(FmtFieldLines(fields[1..], k)));
      if |fields| > 1 {
        FieldLinesSafe(strict, fields[1..], k);
      }
      InlineSafe(strict, fields[0].value, after);
      FieldSafe(strict, fields[0], after);
    }
  }

  lemma {:induction false} WfStagesSplit(stages: seq<Stage>, n: nat)
    requires WfStages(stages) && n <= |stages|
    ensures WfStages(stages[..n]) && WfStages(stages[n..])
    decreases n
  {
    hide WfStage;
    if n > 0 {
      assert stages[..n][1..] == stages[1..][..n - 1] && stages[n..] == stages[1..][n - 1..];
      WfStagesSplit(stages[1..], n - 1);
    }
  }

  lemma LongStructSafe(strict: bool, e: Endpoint, k: Text)
    requires e.Struct? && WfAtom(e) && Laid(strict, k) && Parted(k)
    ensures Laid(strict, FmtLongStruct(e, k))
  {
    hide FmtFieldLines;
    Unfold(strict);
    hide Laid, Runs, IsGap;
    FieldLinesSafe(strict, e.fields, W(INDENT, T(RBrace, k)));
  }

  /** A comment behind code is skipped up to the end of its line. */
  lemma {:induction false} HashSkips(c: string)
    requires '\n' !in c
    ensures Lexer.AfterLine(c + "\n") == []
  {
    if c == [] {
      assert c + "\n" == "\n";
    } else {
      assert (c + "\n")[1..] == c[1..] + "\n";
      HashSkips(c[1..]);
    }
  }

  lemma TrailingSkips(c: string)
    requires IsHash(c)
    ensures IsGap("  " + c + "\n") && IsBlank(("  " + c + "\n")[0])
  {
    var s := c + "\n";
    assert s[1..] == c[1..] + "\n";
    HashSkips(c[1..]);
    assert s[|c|] == '\n' && '\n' in s;
    assert Skips([]);
    assert Skips(s);
    var t := "  " + c + "\n";
    assert t[1..][1..] == s;
  }

  lemma LineEndSafe(strict: bool, trailing: Option<string>, k: Text)
    requires IsTrailing(trailing) && Laid(strict, k)
    ensures Laid(strict, LineEnd(trailing, k)) && Parted(LineEnd(trailing, k))
  {
    Unfold(strict);
    if trailing.Some? { TrailingSkips(trailing.value); }
  }

  lemma MultilineChainSafe(strict: bool, c: Chain, trailing: Option<string>, k: Text)
    requires WfChain(c) && IsTrailing(trailing) && Laid(strict, k)
    ensures Laid(strict, FmtMultilineChain(c, trailing, k))
  {
    hide Width, WfStages, FmtStages, FmtLongStruct, FmtEndpoint, WfAtom, FmtStageLines;
    Unfold(strict);
    hide Laid, Runs, IsGap;
    if IsLongStruct(c.source) {
      var n := InlineCount(c.stages);
      WfStagesSplit(c.stages, n);
      var lines := LineEnd(trailing, FmtStageLines(c.stages[n..], k));
      StageLinesSafe(strict, c.stages[n..], k);
      LineEndSafe(strict, trailing, FmtStageLines(c.stages[n..], k));
      StagesSafe(strict, c.stages[..n], lines);
      StagesBlank(c.stages[..n], lines);
      LongStructSafe(strict, c.source, FmtStages(c.stages[..n], lines));
    } else {
      StageLinesSafe(strict, c.stages, k);
      LineEndSafe(strict, trailing, FmtStageLines(c.stages, k));
      AtomSafe(strict, c.source, LineEnd(trailing, FmtStageLines(c.stages, k)));
    }
  }

  lemma StagesBlank(stages: seq<Stage>, k: Text)
    requires Parted(k)
    ensures Parted(FmtStages(stages, k))
  {
  }

  lemma {:induction false} EveryStage(stages: seq<Stage>, i: nat)
    requires WfStages(stages) && i < |stages|
    ensures WfStage(stages[i])
    decreases i
  {
    if i > 0 {
      EveryStage(stages[1..], i - 1);
    }
  }

  lemma {:induction false} AlignedSafe(strict: bool, c: Chain, j: nat, group: seq<Row>, k: Text)
    requires j <= |c.stages| && WfChain(c) && Laid(strict, k) && Parted(k)
    ensures Laid(strict, FmtAligned(c, j, group, k))
    decreases |c.stages| - j
  {
    Unfold(strict);
    hide Laid, Runs, IsGap;
    hide FmtStage, FmtEndpoint, WfStages, WfAtom, ColumnWidth, Width;
    var width := Width(FmtPart(c, j, End));
    var pad := if ColumnWidth(group, j) > width then ColumnWidth(group, j) - width else 0;
    var after := if j == |c.stages| then k else W(Spaces(pad) + " ", T(Arrow, W(" ", FmtAligned(c, j + 1, group, k))));
    if j < |c.stages| {
      AlignedSafe(strict, c, j + 1, group, k);
      BlankIsGap(Spaces(pad) + " ");
    }
    assert Laid(strict, after) && Parted(after);
    if j == 0 {
      AtomSafe(strict, c.source, after);
    } else {
      EveryStage(c.stages, j - 1);
      StageSafe(strict, c.stages[j - 1], after);
    }
  }

  predicate WfRow(row: Row) { WfChain(row.chain) && IsTrailing(row.trailing) }

  predicate WfRows(rows: seq<Row>) { forall i :: 0 <= i < |rows| ==> WfRow(rows[i]) }

  lemma {:induction false} GroupSafe(strict: bool, rows: seq<Row>, group: seq<Row>, k: Text)
    requires WfRows(rows) && Laid(strict, k)
    ensures Laid(strict, FmtGroup(rows, group, k))
  {
    Unfold(strict);
    hide Laid, Runs, IsGap;
    hide FmtAligned, WfChain, LineEnd;
    if rows != [] {
      assert WfRow(rows[0]);
      var rest := FmtGroup(rows[1..], group, k);
      GroupSafe(strict, rows[1..], group, k);
      LineEndSafe(strict, rows[0].trailing, rest);
      AlignedSafe(strict, rows[0].chain, 0, group, LineEnd(rows[0].trailing, rest));
    }
  }
}
