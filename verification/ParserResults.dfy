/** Whatever src/parser.rs returns for the tokens of a lexed text is a well-formed tree. */
module ParserResults {
  import opened Tokens
  import opened Ast
  import opened Parsing
  import opened WellFormed

  /** Every token is one the lexer can produce. */
  predicate Clean(ts: List)
  {
    ts.Nil? || (Lexable(ts.head) && Clean(ts.tail))
  }

  lemma CleanAhead(ts: List)
    requires Clean(ts)
    ensures var t1 := Next(ts); var t2 := Next(t1); var t3 := Next(t2); var t4 := Next(t3);
            Clean(t1) && Clean(t2) && Clean(t3) && Clean(t4) && Clean(Next(t4))
  {
    var t1 := Next(ts);
    var t2 := Next(t1);
    var t3 := Next(t2);
    var t4 := Next(t3);
    assert Clean(t1);
    assert Clean(t2);
    assert Clean(t3);
    assert Clean(t4);
  }

  // ---- Names ----

  lemma {:induction false} QIdentTailResult(acc: QName, ts: List)
    requires WfQName(acc) && Clean(ts)
    ensures var r := QIdentTail(acc, ts); r.Ok? ==> WfQName(r.value) && Clean(r.rest)
    decreases ts
  {
    if Peek(ts) == Dot && ExpectIdent(Next(ts)).Ok? {
      QIdentTailResult(acc + [ts.tail.head.name], ts.tail.tail);
    }
  }

  lemma QIdentResult(ts: List)
    requires Clean(ts)
    ensures var r := QIdent(ts); r.Ok? ==> WfQName(r.value) && Clean(r.rest) && Peek(ts) == Ident(r.value[0])
  {
    if Peek(ts).Ident? {
      QIdentTailResult([ts.head.name], ts.tail);
      QIdentTailKeeps([ts.head.name], ts.tail);
    }
  }

  lemma {:induction false} QIdentTailKeeps(acc: QName, ts: List)
    requires acc != []
    ensures var r := QIdentTail(acc, ts); r.Ok? ==> r.value != [] && r.value[0] == acc[0]
    decreases ts
  {
    if Peek(ts) == Dot && ExpectIdent(Next(ts)).Ok? {
      QIdentTailKeeps(acc + [ts.tail.head.name], ts.tail.tail);
    }
  }

  lemma {:induction false} RefArgsResult(acc: seq<QName>, ts: List)
    requires Clean(ts) && forall i :: 0 <= i < |acc| ==> WfQName(acc[i])
    ensures
      var r := RefArgs(acc, ts);
      r.Ok? ==> Clean(r.rest) && forall i :: 0 <= i < |r.value| ==> WfQName(r.value[i])
    decreases ts
  {
    QIdentResult(ts);
    if QIdent(ts).Ok? {
      var ts1 := QIdent(ts).rest;
      if Peek(ts1) == Comma && Peek(Next(ts1)) != Greater {
        RefArgsResult(acc + [QIdent(ts).value], ts1.tail);
      }
    }
  }

  lemma NodeRefResult(ts: List)
    requires Clean(ts)
    ensures
      var r := ParseNodeRef(ts);
      r.Ok? ==> WfRef(r.value) && Clean(r.rest) && r.value.base != [] && Peek(ts) == Ident(r.value.base[0])
  {
    QIdentResult(ts);
    if QIdent(ts).Ok? {
      var ts1 := QIdent(ts).rest;
      if Peek(ts1) == Less {
        RefArgsResult([], ts1.tail);
      }
    }
  }

  // ---- Binding targets ----

  lemma {:induction false} WfTargetsAppend(items: seq<BindingTarget>, item: BindingTarget)
    requires WfTargets(items) && WfTarget(item)
    ensures WfTargets(items + [item])
  {
    if items != [] {
      WfTargetsAppend(items[1..], item);
      assert (items + [item])[1..] == items[1..] + [item];
    }
  }

  lemma {:induction false} TargetResult(ts: List)
    requires Clean(ts)
    ensures var r := ParseTarget(ts); r.Ok? ==> WfTarget(r.value) && Clean(r.rest)
    decreases ts, 0
  {
    if Peek(ts) == LParen {
      TargetResult(ts.tail);
      var first := ParseTarget(ts.tail);
      if first.Ok? && Peek(first.rest) == Comma {
        TargetResult(first.rest.tail);
        var second := ParseTarget(first.rest.tail);
        if second.Ok? {
          var two := [first.value, second.value];
          assert two[1..] == [second.value];
          TargetItemsResult(two, second.rest);
        }
      }
    }
  }

  lemma {:induction false} TargetItemsResult(acc: seq<BindingTarget>, ts: List)
    requires WfTargets(acc) && Clean(ts)
    ensures var r := TargetItems(acc, ts); r.Ok? ==> WfTargets(r.value) && Clean(r.rest) && |r.value| >= |acc|
    decreases ts, 1
  {
    if Peek(ts) == Comma {
      TargetResult(ts.tail);
      var item := ParseTarget(ts.tail);
      if item.Ok? {
        WfTargetsAppend(acc, item.value);
        TargetItemsResult(acc + [item.value], item.rest);
      }
    }
  }

  // ---- Growing lists ----

  lemma {:induction false} WfItemsAppend(items: seq<Endpoint>, item: Endpoint)
    requires WfItems(items) && WfInline(item)
    ensures WfItems(items + [item])
  {
    if items != [] {
      WfItemsAppend(items[1..], item);
      assert (items + [item])[1..] == items[1..] + [item];
    }
  }

  lemma {:induction false} WfFieldsAppend(fields: seq<Field>, f: Field)
    requires WfFields(fields) && IsIdent(f.name) && WfInline(f.value)
    ensures WfFields(fields + [f])
  {
    if fields != [] {
      WfFieldsAppend(fields[1..], f);
      assert (fields + [f])[1..] == fields[1..] + [f];
    }
  }

  lemma {:induction false} WfStagesAppend(stages: seq<Stage>, s: Stage)
    requires WfStages(stages) && WfStage(s)
    ensures WfStages(stages + [s])
  {
    if stages != [] {
      WfStagesAppend(stages[1..], s);
      assert (stages + [s])[1..] == stages[1..] + [s];
    }
  }

  /** The arms read before the closing brace: only the last may be a fallback. */
  predicate ArmsSoFar(arms: seq<MatchArm>, sawFallback: bool)
  {
    && (forall i :: 0 <= i < |arms| ==> WfArm(arms[i]))
    && (forall i :: 0 <= i < |arms| - 1 ==> !arms[i].guard.Fallback?)
    && (arms == [] ==> !sawFallback)
    && (arms != [] ==> (arms[|arms| - 1].guard.Fallback? <==> sawFallback))
  }

  lemma {:induction false} ArmsComplete(arms: seq<MatchArm>)
    requires ArmsSoFar(arms, true)
    ensures WfArms(arms)
  {
    if |arms| > 1 {
      ArmsComplete(arms[1..]);
    }
  }

  // ---- Endpoints ----

  lemma {:induction false} AtomResult(ts: List)
    requires Clean(ts)
    ensures
      var r := ParseAtom(ts);
      r.Ok? ==> WfAtom(r.value) && Clean(r.rest)
    decreases ts, 0
  {
    hide ParseInline, TupleItems, InlineList, StructFields;
    if Peek(ts) == LParen {
      TupleResult(ts);
    } else if Peek(ts) == LBracket {
      if Peek(ts.tail) != RBracket {
        InlineListResult([], RBracket, ts.tail);
      }
    } else if Peek(ts).Ident? && Peek(ts.tail) == LBrace && Peek(ts.tail.tail) != RBrace {
      StructFieldsResult([], ts.tail.tail);
    }
  }

  /** An atom is a struct literal only if it starts with an identifier, a name or evaluation never. */
  lemma AtomShape(ts: List)
    ensures var r := ParseAtom(ts); r.Ok? ==> (r.value.Struct? <==> ts.head.Ident?)
    ensures var r := ParseAtom(ts); r.Ok? ==> ts.Cons? && !r.value.Name? && !r.value.Eval?
    ensures var r := ParseAtom(ts); r.Ok? ==> (r.value.Variable? <==> ts.head.Variable?)
    ensures var r := ParseAtom(ts); r.Ok? ==> (r.value.Int? <==> ts.head.Int?)
    ensures var r := ParseAtom(ts); r.Ok? ==> (r.value.Unit? || r.value.Tuple? <==> ts.head.LParen?)
  {
    hide ParseInline, TupleItems, InlineList, StructFields;
  }

  lemma {:induction false} TupleResult(ts: List)
    requires Clean(ts) && Peek(ts) == LParen
    ensures var r := ParseAtom(ts); r.Ok? ==> WfAtom(r.value) && Clean(r.rest)
    decreases ts, -1
  {
    hide ParseInline, TupleItems;
    if Peek(ts.tail) != RParen {
      InlineResult(ts.tail);
      var first := ParseInline(ts.tail);
      if first.Ok? && Peek(first.rest) == Comma {
        InlineResult(first.rest.tail);
        var second := ParseInline(first.rest.tail);
        if second.Ok? {
          var two := [first.value, second.value];
          assert two[1..] == [second.value] && WfItems(two[1..]);
          TupleItemsResult(two, second.rest);
        }
      }
    }
  }

  lemma {:induction false} InlineResult(ts: List)
    requires Clean(ts)
    ensures
      var r := ParseInline(ts);
      r.Ok? ==> WfInline(r.value) && Clean(r.rest)
    ensures
      var r := ParseInline(ts);
      r.Ok? && !Peek(ts).Ident? ==> !r.value.Struct? && !(r.value.Eval? && r.value.source.Struct?)
    decreases ts, 3
  {
    AtomResult(ts);
    AtomShape(ts);
    if ParseAtom(ts).Ok? {
      StagesResult([], ParseAtom(ts).rest);
    }
    hide ParseAtom, Stages;
  }

  lemma {:induction false} InlineListResult(acc: seq<Endpoint>, close: Token, ts: List)
    requires WfItems(acc) && Clean(ts) && close != Eof
    ensures var r := InlineList(acc, close, ts); r.Ok? ==> WfItems(r.value) && Clean(r.rest)
    decreases ts, 4
  {
    hide ParseInline;
    InlineResult(ts);
    var item := ParseInline(ts);
    if item.Ok? {
      WfItemsAppend(acc, item.value);
      var ts1 := item.rest;
      if Peek(ts1) == Comma && Peek(ts1.tail) != close {
        InlineListResult(acc + [item.value], close, ts1.tail);
      }
    }
  }

  lemma {:induction false} TupleItemsResult(acc: seq<Endpoint>, ts: List)
    requires WfItems(acc) && Clean(ts)
    ensures var r := TupleItems(acc, ts); r.Ok? ==> WfItems(r.value) && Clean(r.rest) && |r.value| >= |acc|
    decreases ts, 4
  {
    hide ParseInline;
    if Peek(ts) == Comma {
      InlineResult(ts.tail);
      var item := ParseInline(ts.tail);
      if item.Ok? {
        WfItemsAppend(acc, item.value);
        TupleItemsResult(acc + [item.value], item.rest);
      }
    }
  }

  lemma {:induction false} StructFieldsResult(acc: seq<Field>, ts: List)
    requires WfFields(acc) && Clean(ts)
    ensures var r := StructFields(acc, ts); r.Ok? ==> r.value != [] && WfFields(r.value) && Clean(r.rest)
    decreases ts, 4
  {
    hide ParseInline;
    if Peek(ts).Ident? && Peek(ts.tail) == Colon {
      var ts2 := ts.tail.tail;
      InlineResult(ts2);
      var value := ParseInline(ts2);
      if value.Ok? {
        var f := Field(ts.head.name, value.value);
        WfFieldsAppend(acc, f);
        var ts3 := value.rest;
        if Peek(ts3) == Comma && Peek(ts3.tail) != RBrace {
          StructFieldsResult(acc + [f], ts3.tail);
        }
      }
    }
  }

  // ---- Stages and arms ----

  lemma {:induction false} StagesResult(acc: seq<Stage>, ts: List)
    requires WfStages(acc) && Clean(ts)
    ensures var r := Stages(acc, ts); r.Ok? ==> WfStages(r.value) && Clean(r.rest)
    decreases ts, 2
  {
    hide ParseStage, WfStage;
    if Peek(ts) == Arrow {
      StageResult(ts.tail);
      var stage := ParseStage(ts.tail);
      if stage.Ok? {
        WfStagesAppend(acc, stage.value);
        StagesResult(acc + [stage.value], stage.rest);
      }
    }
  }

  lemma {:induction false} StageResult(ts: List)
    requires Clean(ts)
    ensures var r := ParseStage(ts); r.Ok? ==> WfStage(r.value) && Clean(r.rest)
    decreases ts, 2
  {
    hide ParseTarget, ParseAtom, WordStage, WfTarget, WfRef;
    match Peek(ts)
    case Ident(word) => WordStageResult(word, ts);
    case Variable(_) => TargetResult(ts);
    case Discard => TargetResult(ts);
    case LParen => TargetResult(ts);
    case _ =>
      AtomResult(ts);
      AtomShape(ts);
  }

  lemma {:induction false} WordStageResult(word: string, ts: List)
    requires Clean(ts) && Peek(ts) == Ident(word)
    ensures var r := WordStage(word, ts); r.Ok? ==> WfStage(r.value) && Clean(r.rest)
    decreases ts, 0
  {
    hide ParseNodeRef, RepeatStage, IdentityArgument, Arms, NodeStage, WfRef, WfAtom;
    if word == "repeat" {
      RepeatResult(ts.tail);
    } else if word == "reduce" || word == "scan" {
      NodeRefResult(ts.tail);
      var node := ParseNodeRef(ts.tail);
      if node.Ok? {
        IdentityResult(node.rest);
      }
    } else if word == "match" {
      if Peek(ts.tail) == LBrace {
        ArmsResult([], false, ts.tail.tail);
      }
    } else {
      NodeStageResult(word, ts);
    }
  }

  lemma NodeStageResult(word: string, ts: List)
    requires Clean(ts) && Peek(ts) == Ident(word) && word !in {"repeat", "reduce", "scan", "match"}
    ensures var r := NodeStage(word, ts); r.Ok? ==> WfStage(r.value) && Clean(r.rest)
  {
    hide ParseNodeRef, FaultMapStage, WfRef;
    if word == "map" || word == "filter" {
      NodeRefResult(ts.tail);
    } else if word == "fault" {
      FaultMapResult(ts.tail);
    } else if word != "field" {
      NodeRefResult(ts);
    }
  }

  lemma OutcomesResult(node: NodeRef, ts: List)
    requires Clean(ts)
    ensures
      var r := Outcomes(node, ts);
      r.Ok? ==> r.value == FaultMap(node, r.value.ok, r.value.fault) && IsWord(r.value.ok) && IsWord(r.value.fault)
    ensures Outcomes(node, ts).Ok? ==> Clean(Outcomes(node, ts).rest)
  {
    CleanAhead(ts);
    var ts5 := Next(Next(Next(Next(Next(ts)))));
    CleanAhead(ts5);
    hide Clean;
  }

  lemma FaultMapResult(ts: List)
    requires Clean(ts)
    ensures var r := FaultMapStage(ts); r.Ok? ==> WfStage(r.value) && Clean(r.rest)
  {
    hide ParseNodeRef, WfRef;
    if Peek(ts) == Ident("map") {
      NodeRefResult(ts.tail);
      var node := ParseNodeRef(ts.tail);
      if node.Ok? {
        OutcomesResult(node.value, node.rest);
      }
    }
  }

  lemma {:induction false} RepeatResult(ts: List)
    requires Clean(ts)
    ensures var r := RepeatStage(ts); r.Ok? ==> WfStage(r.value) && Clean(r.rest)
    decreases ts, 1
  {
    hide ParseNodeRef, ParseAtom, WfRef, WfAtom;
    if Peek(ts) == Less {
      AtomResult(ts.tail);
      AtomShape(ts.tail);
      var count := ParseAtom(ts.tail);
      if count.Ok? && Peek(count.rest) == Greater {
        NodeRefResult(count.rest.tail);
      }
    }
  }

  lemma {:induction false} IdentityResult(ts: List)
    requires Clean(ts)
    ensures var r := IdentityArgument(ts); r.Ok? ==> WfAtom(r.value) && Clean(r.rest)
    decreases ts, 1
  {
    hide ParseAtom, WfAtom;
    CleanAhead(ts);
    if Peek(ts) == LParen && Peek(ts.tail) == Ident("identity") && Peek(ts.tail.tail) == Colon {
      AtomResult(ts.tail.tail.tail);
    }
  }

  lemma {:induction false} ArmsResult(acc: seq<MatchArm>, sawFallback: bool, ts: List)
    requires ArmsSoFar(acc, sawFallback) && Clean(ts)
    ensures var r := Arms(acc, sawFallback, ts); r.Ok? ==> WfArms(r.value) && Clean(r.rest)
    decreases ts, 4
  {
    hide Guard, ParseMatchTarget, WfGuard, WfMatchTarget, WfArms;
    if Peek(ts) == RBrace {
      if sawFallback {
        ArmsComplete(acc);
      }
    } else if !sawFallback {
      GuardResult(ts);
      var guard := Guard(ts);
      if guard.Ok? && Peek(guard.rest) == Arrow {
        MatchTargetResult(guard.rest.tail);
        var target := ParseMatchTarget(guard.rest.tail);
        if target.Ok? {
          var acc1 := acc + [MatchArm(guard.value, target.value)];
          ArmsResult(acc1, guard.value.Fallback?, target.rest);
        }
      }
    }
  }

  lemma {:induction false} GuardResult(ts: List)
    requires Clean(ts)
    ensures var r := Guard(ts); r.Ok? ==> WfGuard(r.value) && Clean(r.rest)
    decreases ts, 3
  {
    hide ParseNodeRef, InlineList, WfRef;
    if Peek(ts) != Ident("_") {
      NodeRefResult(ts);
      var node := ParseNodeRef(ts);
      if node.Ok? && Peek(node.rest) == LParen {
        CleanAhead(node.rest);
        if Peek(node.rest.tail) == RParen {
          assert WfItems([]);
          assert Guard(ts) == Ok(Call(node.value, []), node.rest.tail.tail);
        } else {
          InlineListResult([], RParen, node.rest.tail);
        }
      }
    }
  }

  lemma {:induction false} MatchTargetResult(ts: List)
    requires Clean(ts)
    ensures var r := ParseMatchTarget(ts); r.Ok? ==> WfMatchTarget(r.value) && Clean(r.rest)
    decreases ts, 4
  {
    hide ParseNodeRef, ParseInline, WfRef;
    if Peek(ts).Ident? {
      NodeRefResult(ts);
    } else {
      InlineResult(ts);
    }
  }

  // ---- Types and ports ----

  lemma {:induction false} TypeTailResult(text: TypeText, depth: nat, ts: List) returns (read: TypeText)
    requires Clean(ts)
    ensures
      var r := TypeTail(text, depth, ts);
      r.Ok? ==> r.value == text + read && TypeReads(text == [], depth, read) && Clean(r.rest)
    decreases ts
  {
    read := [];
    var t := Peek(ts);
    if ContinuesType(text == [], depth, t) {
      var more := TypeTailResult(text + [t], DepthAfter(depth, t), ts.tail);
      read := [t] + more;
      assert read[1..] == more && text + [t] + more == text + read;
    } else {
      assert text + read == text;
    }
  }

  lemma TypeResult(ts: List)
    requires Clean(ts)
    ensures var r := ParseType(ts); r.Ok? ==> WfType(r.value) && Clean(r.rest)
  {
    var read := TypeTailResult([], 0, ts);
    assert [] + read == read;
  }

  lemma PortResult(ts: List)
    requires Clean(ts)
    ensures var r := ParsePort(ts); r.Ok? ==> WfPort(r.value) && Clean(r.rest)
  {
    hide ParseType, WfType;
    if Peek(ts).Ident? && Peek(ts.tail) == Colon {
      TypeResult(ts.tail.tail);
    }
  }

  lemma {:induction false} PortTailResult(acc: seq<Port>, ts: List)
    requires WfPorts(acc) && Clean(ts)
    ensures var r := PortTail(acc, ts); r.Ok? ==> WfPorts(r.value) && |r.value| >= |acc| && Clean(r.rest)
    decreases ts
  {
    hide ParsePort, WfPort;
    if Peek(ts) == Comma {
      PortResult(ts.tail);
      var port := ParsePort(ts.tail);
      if port.Ok? {
        PortTailResult(acc + [port.value], port.rest);
      }
    }
  }

  lemma PortListResult(ts: List)
    requires Clean(ts)
    ensures var r := PortList(ts); r.Ok? ==> WfPorts(r.value) && r.value != [] && Clean(r.rest)
  {
    hide ParsePort, WfPort, PortTail;
    PortResult(ts);
    if ParsePort(ts).Ok? {
      PortTailResult([ParsePort(ts).value], ParsePort(ts).rest);
    }
  }

  lemma PortOrListResult(ts: List)
    requires Clean(ts)
    ensures var r := PortOrList(ts); r.Ok? ==> WfPorts(r.value) && r.value != [] && Clean(r.rest)
  {
    hide ParsePort, WfPort, PortList;
    if Peek(ts) == LParen {
      PortListResult(ts.tail);
    } else {
      PortResult(ts);
    }
  }

  lemma InputsResult(ts: List)
    requires Clean(ts)
    ensures var r := Inputs(ts); r.Ok? ==> WfPorts(r.value) && Clean(r.rest)
  {
    hide WfPort, PortList;
    if Peek(ts) == LParen && Peek(ts.tail) != RParen {
      PortListResult(ts.tail);
    }
  }

  // ---- Declarations ----

  lemma {:induction false} StructPortsResult(acc: seq<Port>, ts: List)
    requires WfPorts(acc) && Clean(ts)
    ensures var r := StructPorts(acc, ts); r.Ok? ==> WfPorts(r.value) && r.value != [] && Clean(r.rest)
    decreases ts
  {
    hide ParsePort, WfPort;
    PortResult(ts);
    var port := ParsePort(ts);
    if port.Ok? && Peek(port.rest) == Comma && Peek(port.rest.tail) != RBrace {
      StructPortsResult(acc + [port.value], port.rest.tail);
    }
  }

  lemma StructResult(ts: List)
    requires Clean(ts)
    ensures var r := ParseStruct(ts); r.Ok? ==> WfDecl(r.value) && Clean(r.rest)
  {
    hide StructPorts, WfPorts;
    if Peek(ts).Ident? && Peek(ts.tail) == LBrace {
      assert WfPorts([]) by { EmptyPorts(); }
      StructPortsResult([], ts.tail.tail);
    }
  }

  lemma EmptyPorts()
    ensures WfPorts([])
  {
  }

  lemma AliasResult(ts: List)
    requires Clean(ts)
    ensures var r := ParseAlias(ts); r.Ok? ==> WfDecl(r.value) && Clean(r.rest)
  {
    hide ParseType, WfType;
    if Peek(ts).Ident? && Peek(ts.tail) == Equal {
      TypeResult(ts.tail.tail);
    }
  }

  lemma SourceResult(ts: List)
    requires Clean(ts)
    ensures var r := ParseSource(ts); r.Ok? ==> (r.value.FromModule? ==> WfQName(r.value.path)) && Clean(r.rest)
  {
    hide QIdent, WfQName;
    if Peek(ts).Ident? {
      QIdentResult(ts);
    }
  }

  lemma {:induction false} ImportItemsResult(acc: seq<ImportItem>, ts: List)
    requires Clean(ts) && forall i :: 0 <= i < |acc| ==> WfItem(acc[i])
    ensures
      var r := ImportItems(acc, ts);
      r.Ok? ==> r.value != [] && Clean(r.rest) && forall i :: 0 <= i < |r.value| ==> WfItem(r.value[i])
    decreases ts
  {
    hide ParseItem, WfItem;
    ItemResult(ts);
    var item := ParseItem(ts);
    if item.Ok? && Peek(item.rest) == Comma && Peek(item.rest.tail) != RBrace {
      ImportItemsResult(acc + [item.value], item.rest.tail);
    }
  }

  lemma ItemResult(ts: List)
    requires Clean(ts)
    ensures var r := ParseItem(ts); r.Ok? ==> WfItem(r.value) && Clean(r.rest)
  {
    CleanAhead(ts);
  }

  lemma ImportResult(ts: List)
    requires Clean(ts)
    ensures var r := ParseImport(ts); r.Ok? ==> WfDecl(r.value) && Clean(r.rest)
  {
    hide ParseSource, ImportItems, WfItem, WfQName;
    SourceResult(ts);
    var source := ParseSource(ts);
    if source.Ok? && Peek(source.rest) == LBrace {
      ImportItemsResult([], source.rest.tail);
    }
  }

  lemma ForeignNodeResult(ts: List)
    requires Clean(ts)
    ensures var r := ParseForeignNode(ts); r.Ok? ==> WfForeignNode(r.value) && Clean(r.rest)
  {
    hide Inputs, PortOrList, QIdent, WfPorts, WfQName;
    CleanAhead(ts);
    if Peek(ts).Ident? && Peek(ts.tail) == Ident("node") && Peek(ts.tail.tail).Ident? {
      var ts3 := ts.tail.tail.tail;
      InputsResult(ts3);
      var inputs := Inputs(ts3);
      if inputs.Ok? && Peek(inputs.rest) == Arrow {
        PortOrListResult(inputs.rest.tail);
        var outputs := PortOrList(inputs.rest.tail);
        if outputs.Ok? && Peek(outputs.rest) == Equal {
          QIdentResult(outputs.rest.tail);
        }
      }
    }
  }

  lemma {:induction false} ForeignNodesResult(acc: seq<ForeignNode>, ts: List)
    requires Clean(ts) && forall i :: 0 <= i < |acc| ==> WfForeignNode(acc[i])
    ensures
      var r := ForeignNodes(acc, ts);
      r.Ok? ==> r.value != [] && Clean(r.rest) && forall i :: 0 <= i < |r.value| ==> WfForeignNode(r.value[i])
    decreases ts
  {
    hide ParseForeignNode, WfForeignNode;
    CleanAhead(ts);
    if Peek(ts) != RBrace {
      ForeignNodeResult(ts);
      var node := ParseForeignNode(ts);
      if node.Ok? {
        ForeignNodesResult(acc + [node.value], node.rest);
      }
    }
  }

  lemma ForeignHeadResult(ts: List)
    requires Clean(ts)
    ensures
      var r := ParseForeignHead(ts);
      r.Ok? ==> (r.value.0.C? <==> r.value.1.CHeader?) && Clean(r.rest)
  {
    CleanAhead(ts);
  }

  lemma ForeignResult(ts: List)
    requires Clean(ts)
    ensures var r := ParseForeign(ts); r.Ok? ==> WfDecl(r.value) && Clean(r.rest)
  {
    hide ParseForeignHead, ForeignNodes, WfForeignNode;
    ForeignHeadResult(ts);
    var head := ParseForeignHead(ts);
    if head.Ok? && Peek(head.rest) == LBrace {
      ForeignNodesResult([], head.rest.tail);
    }
  }

  lemma ParamInputResult(ts: List)
    requires Clean(ts)
    ensures var r := ParamInput(ts); r.Ok? ==> WfType(r.value) && Clean(r.rest)
  {
    hide ParseType;
    if Peek(ts) == LParen {
      if Peek(ts.tail) == RParen {
        var unit: TypeText := [LParen, RParen];
        assert unit[1..] == [RParen] && unit[1..][1..] == [];
        assert TypeReads(false, 1, unit[1..]);
      } else {
        TypeResult(ts.tail);
      }
    }
  }

  lemma ParamResult(ts: List)
    requires Clean(ts)
    ensures var r := ParseParam(ts); r.Ok? ==> WfParam(r.value) && Clean(r.rest)
  {
    hide ParseType, ParamInput, WfType;
    CleanAhead(ts);
    if Peek(ts).Ident? && Peek(ts.tail) == Colon && Peek(ts.tail.tail) == Ident("node") {
      var ts3 := ts.tail.tail.tail;
      ParamInputResult(ts3);
      var input := ParamInput(ts3);
      if input.Ok? && Peek(input.rest) == Arrow {
        TypeResult(input.rest.tail);
      }
    }
  }

  lemma {:induction false} NodeParamsResult(acc: seq<NodeParam>, ts: List)
    requires Clean(ts) && forall i :: 0 <= i < |acc| ==> WfParam(acc[i])
    ensures
      var r := NodeParams(acc, ts);
      r.Ok? ==> Clean(r.rest) && forall i :: 0 <= i < |r.value| ==> WfParam(r.value[i])
    decreases ts
  {
    hide ParseParam, WfParam;
    ParamResult(ts);
    var param := ParseParam(ts);
    if param.Ok? && Peek(param.rest) == Comma && Peek(param.rest.tail) != Greater {
      NodeParamsResult(acc + [param.value], param.rest.tail);
    }
  }

  lemma ParseNodeParamsResult(ts: List)
    requires Clean(ts)
    ensures
      var r := ParseNodeParams(ts);
      r.Ok? ==> Clean(r.rest) && forall i :: 0 <= i < |r.value| ==> WfParam(r.value[i])
  {
    hide NodeParams, WfParam;
    if Peek(ts) == Less && Peek(ts.tail) != Greater {
      NodeParamsResult([], ts.tail);
    }
  }

  lemma ChainResult(ts: List)
    requires Clean(ts)
    ensures var r := ParseChain(ts); r.Ok? ==> WfChain(r.value) && Clean(r.rest)
  {
    hide ParseAtom, Stages, WfAtom;
    AtomResult(ts);
    if ParseAtom(ts).Ok? {
      StagesResult([], ParseAtom(ts).rest);
    }
  }

  lemma {:induction false} ChainsResult(acc: seq<Chain>, ts: List)
    requires Clean(ts) && forall i :: 0 <= i < |acc| ==> WfChain(acc[i])
    ensures
      var r := Chains(acc, ts);
      r.Ok? ==> Clean(r.rest) && forall i :: 0 <= i < |r.value| ==> WfChain(r.value[i])
    decreases ts
  {
    hide ParseChain, WfChain;
    if Peek(ts) != RBrace {
      ChainResult(ts);
      var chain := ParseChain(ts);
      if chain.Ok? {
        ChainsResult(acc + [chain.value], chain.rest);
      }
    }
  }

  lemma CallableResult(isExtern: bool, ts: List)
    requires Clean(ts)
    ensures
      var r := ParseCallable(isExtern, ts);
      r.Ok? ==> WfCallable(r.value) && r.value.isExtern == isExtern && Clean(r.rest)
  {
    hide ParseNodeParams, Inputs, PortOrList, Chains, WfParam, WfPorts, WfChain;
    if Peek(ts).Ident? {
      ParseNodeParamsResult(ts.tail);
      var params := ParseNodeParams(ts.tail);
      if params.Ok? {
        InputsResult(params.rest);
        var inputs := Inputs(params.rest);
        if inputs.Ok? && Peek(inputs.rest) == Arrow {
          PortOrListResult(inputs.rest.tail);
          var outputs := PortOrList(inputs.rest.tail);
          if outputs.Ok? && Peek(outputs.rest) == LBrace {
            ChainsResult([], outputs.rest.tail);
          }
        }
      }
    }
  }

  lemma DeclResult(ts: List)
    requires Clean(ts)
    ensures var r := ParseDecl(ts); r.Ok? ==> WfDecl(r.value) && Clean(r.rest)
  {
    hide ParseAlias, ParseStruct, ParseImport, ParseForeign, ParseCallable, WfCallable, WfType, WfPorts, WfQName,
         WfForeignNode;
    if Peek(ts).Ident? {
      var word := ts.head.name;
      if word == "type" {
        AliasResult(ts.tail);
      } else if word == "struct" {
        StructResult(ts.tail);
      } else if word == "import" {
        ImportResult(ts.tail);
      } else if word == "foreign" {
        ForeignResult(ts.tail);
      } else if word == "extern" {
        if Peek(ts.tail) == Ident("node") {
          CallableResult(true, ts.tail.tail);
        }
      } else {
        CallableResult(false, ts.tail);
      }
    }
  }

  lemma {:induction false} DeclsResult(acc: seq<Decl>, ts: List)
    requires Clean(ts) && forall i :: 0 <= i < |acc| ==> WfDecl(acc[i])
    ensures
      var r := Decls(acc, ts);
      r.Ok? ==> forall i :: 0 <= i < |r.value| ==> WfDecl(r.value[i])
    decreases ts
  {
    hide ParseDecl, WfDecl;
    if ts.Cons? {
      DeclResult(ts);
      var decl := ParseDecl(ts);
      if decl.Ok? {
        DeclsResult(acc + [decl.value], decl.rest);
        assert Decls(acc, ts) == Decls(acc + [decl.value], decl.rest);
      }
    }
  }

  /** Every module the parser returns for lexable tokens is well-formed. */
  lemma ModuleResult(ts: List)
    requires Clean(ts)
    ensures ParseModule(ts).Some? ==> WfModule(ParseModule(ts).value)
  {
    DeclsResult([], ts);
  }
}
