/** The parser of src/parser.rs returns a tree just when the tokens spell it. */
module GrammarParsed {
  import opened Tokens
  import opened Ast
  import opened Parsing
  import opened WellFormed
  import opened Grammar
  import Lexer
  import LexicalGrammar

  // ---- Names ----

  lemma {:induction false} SegmentsParsed(acc: QName, ts: List)
    ensures
      var r := QIdentTail(acc, ts);
      r.Ok? ==> acc <= r.value && SegmentsIn(r.value[|acc|..], ts, r.rest)
    ensures forall q, k :: SegmentsIn(q, ts, k) ==> QIdentTail(acc, ts) == Ok(acc + q, k)
    decreases ts
  {
    var r := QIdentTail(acc, ts);
    if Peek(ts) == Dot && Peek(Next(ts)).Ident? {
      var name := ts.tail.head.name;
      SegmentsParsed(acc + [name], ts.tail.tail);
      if r.Ok? { assert r.value[|acc|..][1..] == r.value[|acc| + 1..]; }
      forall q, k | SegmentsIn(q, ts, k)
        ensures r == Ok(acc + q, k)
      {
        assert acc + [name] + q[1..] == acc + q;
      }
    } else {
      assert forall q: QName :: q == [] ==> acc + q == acc;
      if r.Ok? { assert r.value[|acc|..] == []; }
    }
  }

  lemma NameParsed(ts: List)
    ensures QIdent(ts).Ok? ==> NameIn(QIdent(ts).value, ts, QIdent(ts).rest)
    ensures forall q, k :: NameIn(q, ts, k) ==> QIdent(ts) == Ok(q, k)
  {
    if Peek(ts).Ident? {
      SegmentsParsed([ts.head.name], ts.tail);
      hide SegmentsIn;
      forall q, k | NameIn(q, ts, k)
        ensures QIdent(ts) == Ok(q, k)
      {
        assert q == [q[0]] + q[1..];
      }
    }
  }

  lemma ArgumentsFirst(args: seq<QName>, ts: List, k: List)
    requires ArgumentsIn(args, ts, k)
    ensures IsIdentFirst(ts)
  {}

  lemma ArgumentsStep(args: seq<QName>, ts: List, k: List)
    ensures
      ArgumentsIn(args, ts, k)
      <==> && args != [] && QIdent(ts).Ok? && args[0] == QIdent(ts).value
           && var mid := QIdent(ts).rest;
              if |args| == 1 then Closes(Greater, mid, k) else Starts(Comma, mid) && ArgumentsIn(args[1..], mid.tail, k)
  {
    NameParsed(ts);
    hide NameIn, QIdent;
  }

  lemma ArgumentsSome(args: seq<QName>, ts: List, k: List)
    requires ArgumentsIn(args, ts, k)
    ensures args != []
  {}

  lemma {:induction false} ArgumentsParsed(acc: seq<QName>, ts: List)
    ensures
      var r := RefArgs(acc, ts);
      r.Ok? ==> acc <= r.value && ArgumentsIn(r.value[|acc|..], ts, r.rest)
    ensures forall args, k :: ArgumentsIn(args, ts, k) ==> RefArgs(acc, ts) == Ok(acc + args, k)
    decreases ts
  {
    hide ArgumentsIn, QIdent;
    var r, first := RefArgs(acc, ts), QIdent(ts);
    if first.Ok? {
      var mid, next := first.rest, acc + [first.value];
      var ends := Peek(mid) != Comma || Peek(Next(mid)) == Greater;
      if !ends { ArgumentsParsed(next, mid.tail); }
      if r.Ok? {
        ArgumentsStep(r.value[|acc|..], ts, r.rest);
        if ends {
          assert r.value[|acc|..] == [first.value];
        } else {
          assert r.value[|acc|..][1..] == r.value[|next|..];
          ArgumentsSome(r.value[|next|..], mid.tail, r.rest);
        }
      }
      forall args, k | ArgumentsIn(args, ts, k)
        ensures r == Ok(acc + args, k)
      {
        ArgumentsStep(args, ts, k);
        assert acc + args == next + args[1..];
        if |args| > 1 { ArgumentsFirst(args[1..], mid.tail, k); } else { assert next + args[1..] == next; }
      }
    }
    forall args, k | ArgumentsIn(args, ts, k)
      ensures first.Ok?
    {
      ArgumentsStep(args, ts, k);
    }
  }

  lemma ReferenceParsed(ts: List)
    ensures ParseNodeRef(ts).Ok? ==> ReferenceIn(ParseNodeRef(ts).value, ts, ParseNodeRef(ts).rest)
    ensures forall r, k :: ReferenceIn(r, ts, k) ==> ParseNodeRef(ts) == Ok(r, k)
  {
    NameParsed(ts);
    hide NameIn, ArgumentsIn;
    var base := QIdent(ts);
    if base.Ok? && Peek(base.rest) == Less {
      ArgumentsParsed([], base.rest.tail);
      var args := RefArgs([], base.rest.tail);
      if args.Ok? {
        assert args.value[0..] == args.value;
        ArgumentsSome(args.value, base.rest.tail, args.rest);
      }
      forall r, k | ReferenceIn(r, ts, k)
        ensures ParseNodeRef(ts) == Ok(r, k)
      {
        assert [] + r.args == r.args;
        if r.args != [] { ArgumentsFirst(r.args, base.rest.tail, k); }
      }
    }
  }

  // ---- Binding targets ----

  ghost predicate TargetDecided(ts: List)
  {
    && (ParseTarget(ts).Ok? ==> TargetIn(ParseTarget(ts).value, ts, ParseTarget(ts).rest))
    && forall t, k :: TargetIn(t, ts, k) ==> ParseTarget(ts) == Ok(t, k)
  }

  lemma {:induction false} TargetParsed(ts: List)
    ensures TargetDecided(ts)
    decreases ts, 0
  {
    if Starts(LParen, ts) {
      hide MoreTargetsIn, TargetItems, TargetDecided;
      TargetParsed(ts.tail);
      var first := ParseTarget(ts.tail);
      if first.Ok? && Starts(Comma, first.rest) {
        TargetParsed(first.rest.tail);
        var second := ParseTarget(first.rest.tail);
        if second.Ok? { MoreTargetsParsed([first.value, second.value], second.rest); }
      }
      BothParsed(ts);
    }
  }

  /** What has to be known about the items of a target. */
  ghost predicate ItemsAreDecided(ts: List)
    requires Starts(LParen, ts)
  {
    var first := ParseTarget(ts.tail);
    && TargetDecided(ts.tail)
    && (first.Ok? && Starts(Comma, first.rest) ==>
          && TargetDecided(first.rest.tail)
          && var second := ParseTarget(first.rest.tail);
             second.Ok? ==> MoreTargetsDecided([first.value, second.value], second.rest))
  }

  /** A target in parentheses is read item by item. */
  lemma BothParsed(ts: List)
    requires Starts(LParen, ts) && ItemsAreDecided(ts)
    ensures TargetDecided(ts)
  {
    hide TargetIn, ParseTarget, ItemsAreDecided;
    if ParseTarget(ts).Ok? { BothIsIn(ts); }
    forall t, k | TargetIn(t, ts, k)
      ensures ParseTarget(ts) == Ok(t, k)
    {
      BothIsParsed(t, ts, k);
    }
  }

  lemma BothIsParsed(t: BindingTarget, ts: List, k: List)
    requires Starts(LParen, ts) && ItemsAreDecided(ts) && TargetIn(t, ts, k)
    ensures ParseTarget(ts) == Ok(t, k)
  {
    BothSplit(t, ts, k);
    hide TargetIn, ParseTarget, MoreTargetsIn, TargetItems;
    var mid: List, end: List :|
      TargetIn(t.items[0], ts.tail, mid) && MoreTargetsIn(t.items[1..], mid, end) && One(RParen, end, k);
    assert ParseTarget(ts.tail) == Ok(t.items[0], mid);
    MoreTargetsStep(t.items[1..], mid, end);
    var second := ParseTarget(mid.tail);
    var two := [t.items[0], t.items[1]];
    assert t.items[1..][1..] == t.items[2..] && t.items == two + t.items[2..];
    assert TargetItems(two, second.rest) == Ok(t.items, end);
    hide TargetDecided, MoreTargetsDecided, ItemsAreDecided;
    BothUnfold(ts);
  }

  lemma BothSplit(t: BindingTarget, ts: List, k: List)
    requires Starts(LParen, ts) && TargetIn(t, ts, k)
    ensures
      && t.Both? && |t.items| >= 2
      && exists mid: List, end: List ::
           TargetIn(t.items[0], ts.tail, mid) && MoreTargetsIn(t.items[1..], mid, end) && One(RParen, end, k)
  {
    hide MoreTargetsIn;
  }

  lemma BothUnfold(ts: List)
    requires Starts(LParen, ts)
    ensures
      var first := ParseTarget(ts.tail);
      if first.Fail? || !Starts(Comma, first.rest) then ParseTarget(ts).Fail?
      else
        var second := ParseTarget(first.rest.tail);
        if second.Fail? then ParseTarget(ts).Fail?
        else
          var all := TargetItems([first.value, second.value], second.rest);
          ParseTarget(ts) == if all.Fail? || !Starts(RParen, all.rest) then Fail else Ok(Both(all.value), all.rest.tail)
  {
    hide TargetItems;
  }

  lemma BothIsIn(ts: List)
    requires Starts(LParen, ts) && ItemsAreDecided(ts) && ParseTarget(ts).Ok?
    ensures TargetIn(ParseTarget(ts).value, ts, ParseTarget(ts).rest)
  {
    BothUnfold(ts);
    var first := ParseTarget(ts.tail);
    var second := ParseTarget(first.rest.tail);
    var all := TargetItems([first.value, second.value], second.rest);
    hide ParseTarget, TargetItems, MoreTargetsIn;
    assert all.value[1..][1..] == all.value[2..];
    MoreTargetsStep(all.value[1..], first.rest, all.rest);
    assert MoreTargetsIn(all.value[1..], first.rest, all.rest);
  }

  ghost predicate MoreTargetsDecided(acc: seq<BindingTarget>, ts: List)
  {
    var r := TargetItems(acc, ts);
    && (r.Ok? ==> acc <= r.value && MoreTargetsIn(r.value[|acc|..], ts, r.rest))
    && forall items, k :: MoreTargetsIn(items, ts, k) ==> r == Ok(acc + items, k)
  }

  lemma MoreTargetsStep(items: seq<BindingTarget>, ts: List, k: List)
    requires items != [] && Starts(Comma, ts) ==> TargetDecided(ts.tail)
    ensures
      MoreTargetsIn(items, ts, k)
      <==> if items == [] then ts == k && Peek(k) != Comma
           else
             && Starts(Comma, ts) && ParseTarget(ts.tail).Ok? && ParseTarget(ts.tail).value == items[0]
             && MoreTargetsIn(items[1..], ParseTarget(ts.tail).rest, k)
  {
    hide TargetIn, ParseTarget;
  }

  lemma {:induction false} MoreTargetsParsed(acc: seq<BindingTarget>, ts: List)
    ensures MoreTargetsDecided(acc, ts)
    decreases ts, 1
  {
    var r := TargetItems(acc, ts);
    if Starts(Comma, ts) {
      TargetParsed(ts.tail);
      var item := ParseTarget(ts.tail);
      if item.Ok? { MoreTargetsParsed(acc + [item.value], item.rest); }
    }
    hide MoreTargetsIn, ParseTarget, TargetDecided;
    if r.Ok? {
      MoreTargetsStep(r.value[|acc|..], ts, r.rest);
      if Starts(Comma, ts) { assert r.value[|acc|..][1..] == r.value[|acc| + 1..]; }
    }
    forall items, k | MoreTargetsIn(items, ts, k)
      ensures r == Ok(acc + items, k)
    {
      MoreTargetsStep(items, ts, k);
      if items != [] { assert acc + items == acc + [items[0]] + items[1..]; } else { assert acc + items == acc; }
    }
  }

  // ---- Endpoints ----

  ghost predicate AtomDecided(ts: List)
  {
    && (ParseAtom(ts).Ok? ==> AtomIn(ParseAtom(ts).value, ts, ParseAtom(ts).rest))
    && forall e, k :: AtomIn(e, ts, k) ==> ParseAtom(ts) == Ok(e, k)
  }

  ghost predicate InlineDecided(ts: List)
  {
    && (ParseInline(ts).Ok? ==> InlineIn(ParseInline(ts).value, ts, ParseInline(ts).rest))
    && forall e, k :: InlineIn(e, ts, k) ==> ParseInline(ts) == Ok(e, k)
  }

  ghost predicate MoreItemsDecided(acc: seq<Endpoint>, ts: List)
  {
    var r := TupleItems(acc, ts);
    && (r.Ok? ==> acc <= r.value && MoreItemsIn(r.value[|acc|..], ts, r.rest))
    && forall items, k :: MoreItemsIn(items, ts, k) ==> r == Ok(acc + items, k)
  }

  ghost predicate ItemsDecided(acc: seq<Endpoint>, close: Token, ts: List)
    requires close != Eof
  {
    var r := InlineList(acc, close, ts);
    && (r.Ok? ==> acc <= r.value && ItemsIn(r.value[|acc|..], close, ts, r.rest))
    && forall items, k :: ItemsIn(items, close, ts, k) ==> r == Ok(acc + items, k)
  }

  ghost predicate FieldsDecided(acc: seq<Field>, ts: List)
  {
    var r := StructFields(acc, ts);
    && (r.Ok? ==> acc <= r.value && FieldsIn(r.value[|acc|..], ts, r.rest))
    && forall fields, k :: FieldsIn(fields, ts, k) ==> r == Ok(acc + fields, k)
  }

  ghost predicate StagesDecided(acc: seq<Stage>, ts: List)
  {
    var r := Stages(acc, ts);
    && (r.Ok? ==> acc <= r.value && StagesIn(r.value[|acc|..], ts, r.rest))
    && forall stages, k :: StagesIn(stages, ts, k) ==> r == Ok(acc + stages, k)
  }

  predicate IsCloser(t: Token) { t == RParen || t == RBracket || t == RBrace }

  lemma InlineFirst(e: Endpoint, ts: List, k: List)
    requires InlineIn(e, ts, k)
    ensures ts.Cons? && !IsCloser(ts.head)
  {
    hide MoreItemsIn, ItemsIn, FieldsIn, StagesIn;
  }

  lemma ItemsFirst(items: seq<Endpoint>, close: Token, ts: List, k: List)
    requires ItemsIn(items, close, ts, k)
    ensures items != [] && ts.Cons? && !IsCloser(ts.head)
  {
    hide InlineIn;
    var mid: List :| InlineIn(items[0], ts, mid);
    InlineFirst(items[0], ts, mid);
  }

  /** Tokens that are an endpoint by themselves. */
  lemma LeafParsed(ts: List)
    requires !Starts(LParen, ts) && !Starts(LBracket, ts) && !IsIdentFirst(ts)
    ensures AtomDecided(ts)
  {
    hide MoreItemsIn, ItemsIn, FieldsIn, InlineIn;
  }

  lemma SeqParsed(ts: List)
    requires Starts(LBracket, ts) && (Peek(ts.tail) != RBracket ==> ItemsDecided([], RBracket, ts.tail))
    ensures AtomDecided(ts)
  {
    hide MoreItemsIn, ItemsIn, FieldsIn, InlineIn, InlineList;
    var r := ParseAtom(ts);
    if r.Ok? && Peek(ts.tail) != RBracket {
      var items := InlineList([], RBracket, ts.tail);
      assert items.value[0..] == items.value;
      ItemsFirst(items.value, RBracket, ts.tail, items.rest);
    }
    forall e, k | AtomIn(e, ts, k)
      ensures r == Ok(e, k)
    {
      assert e.Seq?;
      if e.items != [] {
        ItemsFirst(e.items, RBracket, ts.tail, k);
        assert [] + e.items == e.items;
      }
    }
  }

  lemma FieldsFirst(fields: seq<Field>, ts: List, k: List)
    requires FieldsIn(fields, ts, k)
    ensures fields != [] && IsIdentFirst(ts)
  {}

  lemma StructParsed(ts: List)
    requires IsIdentFirst(ts)
    requires Starts(LBrace, ts.tail) && Peek(ts.tail.tail) != RBrace ==> FieldsDecided([], ts.tail.tail)
    ensures AtomDecided(ts)
  {
    hide MoreItemsIn, ItemsIn, FieldsIn, InlineIn, StructFields;
    var r := ParseAtom(ts);
    if r.Ok? {
      var fields := StructFields([], ts.tail.tail);
      assert fields.value[0..] == fields.value;
    }
    forall e, k | AtomIn(e, ts, k)
      ensures r == Ok(e, k)
    {
      assert e.Struct?;
      FieldsFirst(e.fields, ts.tail.tail, k);
      assert [] + e.fields == e.fields;
    }
  }

  lemma MoreItemsStep(items: seq<Endpoint>, ts: List, k: List)
    requires items != [] && Starts(Comma, ts) ==> InlineDecided(ts.tail)
    ensures
      MoreItemsIn(items, ts, k)
      <==> if items == [] then ts == k && Peek(k) != Comma
           else
             && Starts(Comma, ts) && ParseInline(ts.tail).Ok? && ParseInline(ts.tail).value == items[0]
             && MoreItemsIn(items[1..], ParseInline(ts.tail).rest, k)
  {
    hide InlineIn, ParseInline;
  }

  lemma TupleUnfold(ts: List)
    requires Starts(LParen, ts) && Peek(ts.tail) != RParen
    ensures
      var first := ParseInline(ts.tail);
      if first.Fail? || !Starts(Comma, first.rest) then ParseAtom(ts).Fail?
      else
        var second := ParseInline(first.rest.tail);
        if second.Fail? then ParseAtom(ts).Fail?
        else
          var all := TupleItems([first.value, second.value], second.rest);
          ParseAtom(ts) == if all.Fail? || !Starts(RParen, all.rest) then Fail else Ok(Tuple(all.value), all.rest.tail)
  {
    hide TupleItems, ParseInline;
  }

  /** What has to be known about the parts of a tuple. */
  ghost predicate PartsDecided(ts: List)
    requires Starts(LParen, ts)
  {
    var first := ParseInline(ts.tail);
    && InlineDecided(ts.tail)
    && (first.Ok? && Starts(Comma, first.rest) ==>
          && InlineDecided(first.rest.tail)
          && var second := ParseInline(first.rest.tail);
             second.Ok? ==> MoreItemsDecided([first.value, second.value], second.rest))
  }

  lemma TupleIsIn(ts: List)
    requires Starts(LParen, ts) && Peek(ts.tail) != RParen && PartsDecided(ts) && ParseAtom(ts).Ok?
    ensures AtomIn(ParseAtom(ts).value, ts, ParseAtom(ts).rest)
  {
    TupleUnfold(ts);
    var first := ParseInline(ts.tail);
    var second := ParseInline(first.rest.tail);
    var all := TupleItems([first.value, second.value], second.rest);
    hide ParseAtom, ParseInline, TupleItems, MoreItemsIn, InlineIn;
    assert all.value[1..][1..] == all.value[2..];
    MoreItemsStep(all.value[1..], first.rest, all.rest);
    assert MoreItemsIn(all.value[1..], first.rest, all.rest);
  }

  lemma TupleSplit(e: Endpoint, ts: List, k: List)
    requires Starts(LParen, ts) && AtomIn(e, ts, k) && !e.Unit?
    ensures
      && e.Tuple? && |e.items| >= 2
      && exists mid: List, end: List ::
           InlineIn(e.items[0], ts.tail, mid) && MoreItemsIn(e.items[1..], mid, end) && One(RParen, end, k)
  {
    hide MoreItemsIn, InlineIn, ItemsIn, FieldsIn;
  }

  lemma TupleIsParsed(e: Endpoint, ts: List, k: List)
    requires Starts(LParen, ts) && AtomIn(e, ts, k) && !e.Unit? && (Peek(ts.tail) != RParen ==> PartsDecided(ts))
    ensures ParseAtom(ts) == Ok(e, k)
  {
    TupleSplit(e, ts, k);
    hide AtomIn, ParseAtom, ParseInline, MoreItemsIn, TupleItems, InlineIn;
    var mid: List, end: List :|
      InlineIn(e.items[0], ts.tail, mid) && MoreItemsIn(e.items[1..], mid, end) && One(RParen, end, k);
    InlineFirst(e.items[0], ts.tail, mid);
    assert ParseInline(ts.tail) == Ok(e.items[0], mid);
    MoreItemsStep(e.items[1..], mid, end);
    var second := ParseInline(mid.tail);
    assert second == Ok(e.items[1], second.rest);
    var two := [e.items[0], e.items[1]];
    assert e.items[1..][1..] == e.items[2..] && e.items == two + e.items[2..];
    assert TupleItems(two, second.rest) == Ok(e.items, end);
    hide InlineDecided, MoreItemsDecided, PartsDecided;
    TupleUnfold(ts);
  }

  lemma UnitParsed(ts: List, k: List)
    requires Starts(LParen, ts)
    ensures AtomIn(Unit, ts, k) <==> Peek(ts.tail) == RParen && k == Next(ts.tail)
    ensures Peek(ts.tail) == RParen ==> ParseAtom(ts) == Ok(Unit, Next(ts.tail))
  {}

  lemma TupleParsed(ts: List)
    requires Starts(LParen, ts) && (Peek(ts.tail) != RParen ==> PartsDecided(ts))
    ensures AtomDecided(ts)
  {
    hide AtomIn, ParseAtom, PartsDecided;
    if Peek(ts.tail) == RParen {
      UnitParsed(ts, Next(ts.tail));
    } else if ParseAtom(ts).Ok? {
      TupleIsIn(ts);
    }
    forall e, k | AtomIn(e, ts, k)
      ensures ParseAtom(ts) == Ok(e, k)
    {
      if e.Unit? { UnitParsed(ts, k); } else { TupleIsParsed(e, ts, k); }
    }
  }

  lemma ItemsStep(items: seq<Endpoint>, close: Token, ts: List, k: List)
    requires InlineDecided(ts)
    ensures
      ItemsIn(items, close, ts, k)
      <==> && items != [] && ParseInline(ts).Ok? && items[0] == ParseInline(ts).value
           && var mid := ParseInline(ts).rest;
              if |items| == 1 then Closes(close, mid, k) else Starts(Comma, mid) && ItemsIn(items[1..], close, mid.tail, k)
  {
    hide InlineIn, ParseInline;
  }

  lemma FieldsStep(fields: seq<Field>, ts: List, k: List)
    requires IsIdentFirst(ts) && Starts(Colon, ts.tail) ==> InlineDecided(ts.tail.tail)
    ensures
      FieldsIn(fields, ts, k)
      <==> && IsIdentFirst(ts) && Starts(Colon, ts.tail)
           && fields != [] && ParseInline(ts.tail.tail).Ok?
           && fields[0] == Field(ts.head.name, ParseInline(ts.tail.tail).value)
           && var mid := ParseInline(ts.tail.tail).rest;
              if |fields| == 1 then Closes(RBrace, mid, k) else Starts(Comma, mid) && FieldsIn(fields[1..], mid.tail, k)
  {
    hide InlineIn, ParseInline;
  }

  lemma StagesStep(stages: seq<Stage>, ts: List, k: List)
    requires stages != [] && Starts(Arrow, ts) ==> StageDecided(ts.tail)
    ensures
      StagesIn(stages, ts, k)
      <==> if stages == [] then ts == k && Peek(k) != Arrow
           else
             && Starts(Arrow, ts) && ParseStage(ts.tail).Ok? && ParseStage(ts.tail).value == stages[0]
             && StagesIn(stages[1..], ParseStage(ts.tail).rest, k)
  {
    hide StageIn, ParseStage;
  }

  ghost predicate StageDecided(ts: List)
  {
    && (ParseStage(ts).Ok? ==> StageIn(ParseStage(ts).value, ts, ParseStage(ts).rest))
    && forall s, k :: StageIn(s, ts, k) ==> ParseStage(ts) == Ok(s, k)
  }

  lemma ChainOfStages(ts: List)
    requires AtomDecided(ts) && (ParseAtom(ts).Ok? ==> StagesDecided([], ParseAtom(ts).rest))
    ensures InlineDecided(ts)
  {
    hide AtomIn, ParseAtom, StagesIn, Stages;
    var r, source := ParseInline(ts), ParseAtom(ts);
    if r.Ok? {
      var stages := Stages([], source.rest);
      assert stages.value[0..] == stages.value;
      if stages.value == [] { NoStagesIn(source.rest, stages.rest); }
      AtomIsNoEval(source.value, ts, source.rest);
    }
    forall e, k | InlineIn(e, ts, k)
      ensures r == Ok(e, k)
    {
      InlineSplit(e, ts, k);
      if e.Eval? {
        assert [] + e.stages == e.stages;
      } else {
        assert source == Ok(e, k);
        NoStagesIn(source.rest, k);
        var none: seq<Stage> := [];
        assert Stages([], source.rest) == Ok(none + none, k);
        assert none + none == none;
      }
    }
  }

  lemma InlineSplit(e: Endpoint, ts: List, k: List)
    requires InlineIn(e, ts, k)
    ensures !e.Eval? ==> AtomIn(e, ts, k) && Peek(k) != Arrow
    ensures
      e.Eval? ==>
        e.stages != [] && exists mid: List :: AtomIn(e.source, ts, mid) && StagesIn(e.stages, mid, k)
  {
    hide StagesIn;
  }

  lemma NoStagesIn(ts: List, k: List)
    ensures StagesIn([], ts, k) <==> ts == k && Peek(k) != Arrow
  {}

  lemma AtomIsNoEval(e: Endpoint, ts: List, k: List)
    requires AtomIn(e, ts, k)
    ensures !e.Eval?
  {}

  // ---- Stages ----

  ghost predicate IdentityDecided(ts: List)
  {
    && (IdentityArgument(ts).Ok? ==> IdentityIn(IdentityArgument(ts).value, ts, IdentityArgument(ts).rest))
    && forall e, k :: IdentityIn(e, ts, k) ==> IdentityArgument(ts) == Ok(e, k)
  }

  ghost predicate ArmsDecided(acc: seq<MatchArm>, ts: List)
  {
    var r := Arms(acc, false, ts);
    && (r.Ok? ==> acc <= r.value && ArmsIn(r.value[|acc|..], ts, r.rest))
    && forall arms, k :: ArmsIn(arms, ts, k) ==> r == Ok(acc + arms, k)
  }

  lemma IdentityParsed(ts: List)
    requires
      Starts(LParen, ts) && Starts(Ident("identity"), ts.tail) && Starts(Colon, ts.tail.tail) ==>
        AtomDecided(ts.tail.tail.tail)
    ensures IdentityDecided(ts)
  {
    hide AtomIn, ParseAtom;
    if IdentityArgument(ts).Ok? {
      var value := ParseAtom(ts.tail.tail.tail);
      assert AtomIn(value.value, ts.tail.tail.tail, value.rest);
      assert IdentityIn(value.value, ts, value.rest.tail);
    }
    forall e, k | IdentityIn(e, ts, k)
      ensures IdentityArgument(ts) == Ok(e, k)
    {
      var mid: List :| AtomIn(e, ts.tail.tail.tail, mid) && One(RParen, mid, k);
    }
  }

  /** `reduce` and `scan`. */
  lemma FoldParsed(ts: List)
    requires ParseNodeRef(ts).Ok? ==> IdentityDecided(ParseNodeRef(ts).rest)
    ensures
      var node := ParseNodeRef(ts);
      node.Ok? && IdentityArgument(node.rest).Ok? ==>
        FoldIn(node.value, IdentityArgument(node.rest).value, ts, IdentityArgument(node.rest).rest)
    ensures
      forall r, e, k :: FoldIn(r, e, ts, k) ==>
        && ParseNodeRef(ts).Ok? && ParseNodeRef(ts).value == r
        && IdentityArgument(ParseNodeRef(ts).rest) == Ok(e, k)
  {
    ReferenceParsed(ts);
    hide ReferenceIn, ParseNodeRef, IdentityIn, IdentityArgument;
  }

  lemma RepeatSplit(s: Stage, ts: List, k: List)
    requires s.Repeat? && StageIn(s, ts, k)
    ensures
      Starts(Ident("repeat"), ts) && Starts(Less, ts.tail) && (s.count.Variable? || s.count.Int?) && exists mid: List ::
        AtomIn(s.count, ts.tail.tail, mid) && Starts(Greater, mid) && ReferenceIn(s.node, mid.tail, k)
  {}

  lemma RepeatJoin(count: Endpoint, r: NodeRef, ts: List, mid: List, k: List)
    requires Starts(Ident("repeat"), ts) && Starts(Less, ts.tail) && (count.Variable? || count.Int?)
    requires AtomIn(count, ts.tail.tail, mid) && Starts(Greater, mid) && ReferenceIn(r, mid.tail, k)
    ensures StageIn(Repeat(count, r), ts, k)
  {}

  lemma RepeatUnfold(ts: List)
    ensures
      var r := RepeatStage(ts);
      if !Starts(Less, ts) || (!Peek(ts.tail).Variable? && !Peek(ts.tail).Int?) then r.Fail?
      else
        var count := ParseAtom(ts.tail);
        if count.Fail? || !Starts(Greater, count.rest) then r.Fail?
        else
          var node := ParseNodeRef(count.rest.tail);
          r == if node.Fail? then Fail else Ok(Repeat(count.value, node.value), node.rest)
  {
    hide ParseAtom, ParseNodeRef;
  }

  lemma CountParsed(ts: List)
    requires Starts(Less, ts) ==> AtomDecided(ts.tail)
    ensures
      var r := RepeatStage(ts);
      r.Ok? ==> r.value.Repeat? && StageIn(r.value, Cons(Ident("repeat"), ts), r.rest)
    ensures
      forall s: Stage, k: List :: s.Repeat? && StageIn(s, Cons(Ident("repeat"), ts), k) ==> RepeatStage(ts) == Ok(s, k)
  {
    var r, all := RepeatStage(ts), Cons(Ident("repeat"), ts);
    RepeatUnfold(ts);
    if Starts(Less, ts) && ParseAtom(ts.tail).Ok? && Starts(Greater, ParseAtom(ts.tail).rest) {
      ReferenceParsed(ParseAtom(ts.tail).rest.tail);
      if r.Ok? { CountIsCount(ts.tail); }
    }
    hide ReferenceIn, ParseNodeRef, StageIn, RepeatStage, AtomIn, ParseAtom;
    if r.Ok? { RepeatJoin(r.value.count, r.value.node, all, ParseAtom(ts.tail).rest, r.rest); }
    forall s: Stage, k: List | s.Repeat? && StageIn(s, all, k)
      ensures r == Ok(s, k)
    {
      RepeatSplit(s, all, k);
      var mid: List :| AtomIn(s.count, ts.tail, mid) && Starts(Greater, mid) && ReferenceIn(s.node, mid.tail, k);
      CountFirst(s.count, ts.tail, mid);
    }
  }

  lemma CountIsCount(ts: List)
    requires ParseAtom(ts).Ok? && (Peek(ts).Variable? || Peek(ts).Int?)
    ensures ParseAtom(ts).value.Variable? || ParseAtom(ts).value.Int?
  {}

  lemma CountFirst(e: Endpoint, ts: List, k: List)
    requires AtomIn(e, ts, k) && (e.Variable? || e.Int?)
    ensures Peek(ts).Variable? || Peek(ts).Int?
  {}

  lemma OutcomesParsed(node: NodeRef, ts: List)
    ensures
      var r := Outcomes(node, ts);
      r.Ok? ==> ts == Cons(LBrace, TkOutcomes(r.value.ok, r.value.fault, r.rest)) && r.value.node == node
    ensures
      forall ok, fault, k :: ts == Cons(LBrace, TkOutcomes(ok, fault, k)) ==>
        Outcomes(node, ts) == Ok(FaultMap(node, ok, fault), k)
  {}

  lemma FaultMapParsed(ts: List)
    ensures
      var r := FaultMapStage(ts);
      r.Ok? ==>
        && r.value.FaultMap? && Starts(Ident("map"), ts)
        && ReferenceIn(r.value.node, ts.tail, Cons(LBrace, TkOutcomes(r.value.ok, r.value.fault, r.rest)))
    ensures
      forall node, ok, fault, k ::
        Starts(Ident("map"), ts) && ReferenceIn(node, ts.tail, Cons(LBrace, TkOutcomes(ok, fault, k))) ==>
          FaultMapStage(ts) == Ok(FaultMap(node, ok, fault), k)
  {
    if Starts(Ident("map"), ts) {
      ReferenceParsed(ts.tail);
      var node := ParseNodeRef(ts.tail);
      if node.Ok? { OutcomesParsed(node.value, node.rest); }
    }
    hide ReferenceIn, ParseNodeRef, Outcomes, TkOutcomes;
  }

  /** The stage for a word: `fault` has its own form, and any other word is a node. */
  lemma WordIsIn(word: string, ts: List)
    requires Peek(ts) == Ident(word) && NodeStage(word, ts).Ok?
    requires word != "repeat" && word != "reduce" && word != "scan" && word != "match"
    ensures StageIn(NodeStage(word, ts).value, ts, NodeStage(word, ts).rest)
  {
    hide ReferenceIn, ParseNodeRef, FaultMapStage, ArmsIn, FoldIn, TargetIn, AtomIn, TkOutcomes;
    ReferenceParsed(ts);
    ReferenceParsed(ts.tail);
    FaultMapParsed(ts.tail);
    var r := NodeStage(word, ts);
    if r.value.Value? { ReferenceFirst(r.value.endpoint.node, ts, r.rest); }
  }

  lemma WordIsParsed(word: string, ts: List, s: Stage, k: List)
    requires Peek(ts) == Ident(word) && StageIn(s, ts, k)
    requires word != "repeat" && word != "reduce" && word != "scan" && word != "match"
    ensures NodeStage(word, ts) == Ok(s, k)
  {
    ReferenceParsed(ts);
    ReferenceParsed(ts.tail);
    FaultMapParsed(ts.tail);
    if s.Bind? { TargetFirst(s.target, ts, k); }
    if s.Value? && s.endpoint.Name? { ReferenceFirst(s.endpoint.node, ts, k); }
    if s.Value? && !s.endpoint.Name? { AtomFirst(s.endpoint, ts, k); }
    hide ReferenceIn, ParseNodeRef, FaultMapStage, ArmsIn, FoldIn, TargetIn, AtomIn, TkOutcomes;
  }

  lemma TargetFirst(t: BindingTarget, ts: List, k: List)
    requires TargetIn(t, ts, k)
    ensures ts.Cons? && (ts.head == Discard || ts.head.Variable? || ts.head == LParen)
  {
    hide MoreTargetsIn;
  }

  lemma ReferenceFirst(r: NodeRef, ts: List, k: List)
    requires ReferenceIn(r, ts, k)
    ensures r.base != [] && Starts(Ident(r.base[0]), ts)
  {}

  lemma AtomFirst(e: Endpoint, ts: List, k: List)
    requires AtomIn(e, ts, k)
    ensures ts.Cons? && (IsIdentFirst(ts) <==> e.Struct?) && (Starts(LParen, ts) <==> e.Unit? || e.Tuple?)
    ensures (ts.head.Variable? <==> e.Variable?) && ts.head != Discard
  {
    hide MoreItemsIn, ItemsIn, FieldsIn, InlineIn;
  }

  /** The words with an endpoint or arms behind them. */
  lemma OperandWords(ts: List)
    requires IsIdentFirst(ts)
    requires
      && (ts.head.name == "repeat" && Starts(Less, ts.tail) ==> AtomDecided(ts.tail.tail))
      && (ts.head.name in ["reduce", "scan"] && ParseNodeRef(ts.tail).Ok? ==> IdentityDecided(ParseNodeRef(ts.tail).rest))
      && (ts.head.name == "match" && Starts(LBrace, ts.tail) ==> ArmsDecided([], ts.tail.tail))
    requires ts.head.name in ["repeat", "reduce", "scan", "match"]
    ensures StageDecided(ts)
  {
    var word := ts.head.name;
    assert ts == Cons(Ident(word), ts.tail);
    hide AtomDecided, IdentityDecided, ArmsDecided, ReferenceIn, ParseNodeRef, IdentityIn, TargetIn, AtomIn, TkOutcomes;
    forall s, k | StageIn(s, ts, k)
      ensures if word == "repeat" then s.Repeat? else if word == "reduce" then s.Reduce?
              else if word == "scan" then s.Scan? else s.Match?
    {
      OperandKind(s, ts, k);
    }
    if word == "repeat" {
      CountParsed(ts.tail);
      assert ParseStage(ts) == RepeatStage(ts.tail);
      hide StageIn;
    } else if word == "match" {
      MatchParsed(ts);
      hide StageIn;
    } else {
      FoldStageParsed(ts);
      hide StageIn;
    }
  }

  lemma FoldUnfold(ts: List)
    requires IsIdentFirst(ts) && ts.head.name in ["reduce", "scan"]
    ensures
      var node := ParseNodeRef(ts.tail);
      if node.Fail? then ParseStage(ts).Fail?
      else
        var e := IdentityArgument(node.rest);
        ParseStage(ts)
        == if e.Fail? then Fail
           else Ok(if ts.head.name == "reduce" then Reduce(node.value, e.value) else Scan(node.value, e.value), e.rest)
  {
    hide ParseNodeRef, IdentityArgument;
  }

  lemma FoldStageIn(s: Stage, ts: List, k: List)
    requires IsIdentFirst(ts) && ts.head.name in ["reduce", "scan"]
    requires if ts.head.name == "reduce" then s.Reduce? else s.Scan?
    ensures StageIn(s, ts, k) <==> FoldIn(s.node, s.identity, ts.tail, k)
  {
    hide FoldIn;
  }

  lemma FoldStageParsed(ts: List)
    requires IsIdentFirst(ts) && ts.head.name in ["reduce", "scan"]
    requires ParseNodeRef(ts.tail).Ok? ==> IdentityDecided(ParseNodeRef(ts.tail).rest)
    ensures
      var r := ParseStage(ts);
      r.Ok? ==> (if ts.head.name == "reduce" then r.value.Reduce? else r.value.Scan?) && StageIn(r.value, ts, r.rest)
    ensures
      forall s: Stage, k: List ::
        (if ts.head.name == "reduce" then s.Reduce? else s.Scan?) && StageIn(s, ts, k) ==> ParseStage(ts) == Ok(s, k)
  {
    FoldParsed(ts.tail);
    FoldUnfold(ts);
    hide FoldIn, IdentityArgument, ParseNodeRef, IdentityDecided, ParseStage, StageIn;
    var r := ParseStage(ts);
    if r.Ok? { FoldStageIn(r.value, ts, r.rest); }
    forall s: Stage, k: List | (if ts.head.name == "reduce" then s.Reduce? else s.Scan?) && StageIn(s, ts, k)
      ensures r == Ok(s, k)
    {
      FoldStageIn(s, ts, k);
    }
  }

  lemma OperandKind(s: Stage, ts: List, k: List)
    requires IsIdentFirst(ts) && ts.head.name in ["repeat", "reduce", "scan", "match"] && StageIn(s, ts, k)
    ensures
      var word := ts.head.name;
      if word == "repeat" then s.Repeat? else if word == "reduce" then s.Reduce?
      else if word == "scan" then s.Scan? else s.Match?
  {
    if s.Bind? { TargetFirst(s.target, ts, k); }
    if s.Value? && s.endpoint.Name? { ReferenceFirst(s.endpoint.node, ts, k); }
    if s.Value? && !s.endpoint.Name? { AtomFirst(s.endpoint, ts, k); }
    hide ReferenceIn, IdentityIn, TargetIn, AtomIn, TkOutcomes, ArmsIn, FoldIn;
  }

  lemma MatchParsed(ts: List)
    requires Starts(Ident("match"), ts) && (Starts(LBrace, ts.tail) ==> ArmsDecided([], ts.tail.tail))
    ensures
      var r := ParseStage(ts);
      r.Ok? ==> r.value.Match? && StageIn(r.value, ts, r.rest)
    ensures forall s: Stage, k: List :: s.Match? && StageIn(s, ts, k) ==> ParseStage(ts) == Ok(s, k)
  {
    hide ArmsIn, Arms;
    if Starts(LBrace, ts.tail) {
      var arms := Arms([], false, ts.tail.tail);
      if arms.Ok? { assert arms.value[0..] == arms.value; }
      assert forall a: seq<MatchArm> :: [] + a == a;
    }
  }

  /** Other words are nodes, and other tokens begin a binding or an endpoint. */
  lemma OtherStages(ts: List)
    requires IsIdentFirst(ts) ==> ts.head.name !in ["repeat", "reduce", "scan", "match"]
    requires !IsIdentFirst(ts) ==> AtomDecided(ts) && TargetDecided(ts)
    ensures StageDecided(ts)
  {
    if IsIdentFirst(ts) {
      var word := ts.head.name;
      assert ParseStage(ts) == NodeStage(word, ts);
      hide StageIn, ParseStage, NodeStage;
      if ParseStage(ts).Ok? { WordIsIn(word, ts); }
      forall s, k | StageIn(s, ts, k)
        ensures ParseStage(ts) == Ok(s, k)
      {
        WordIsParsed(word, ts, s, k);
      }
    } else {
      hide AtomIn, ParseAtom, TargetIn, ParseTarget, TkOutcomes, ArmsIn, FoldIn;
      var r := ParseStage(ts);
      if r.Ok? && r.value.Value? { AtomFirst(r.value.endpoint, ts, r.rest); }
      forall s, k | StageIn(s, ts, k)
        ensures ParseStage(ts) == Ok(s, k)
      {
        if s.Bind? { TargetFirst(s.target, ts, k); }
        if s.Value? && s.endpoint.Name? { ReferenceFirst(s.endpoint.node, ts, k); }
        if s.Value? && !s.endpoint.Name? { AtomFirst(s.endpoint, ts, k); }
      }
    }
  }

  // ---- Arms ----

  ghost predicate GuardDecided(ts: List)
  {
    && (Guard(ts).Ok? ==> GuardIn(Guard(ts).value, ts, Guard(ts).rest))
    && forall g, k :: GuardIn(g, ts, k) ==> Guard(ts) == Ok(g, k)
  }

  ghost predicate ArmTargetDecided(ts: List)
  {
    && (ParseMatchTarget(ts).Ok? ==> ArmTargetIn(ParseMatchTarget(ts).value, ts, ParseMatchTarget(ts).rest))
    && forall t, k :: ArmTargetIn(t, ts, k) ==> ParseMatchTarget(ts) == Ok(t, k)
  }

  lemma ArmTargetParsed(ts: List)
    requires !IsIdentFirst(ts) ==> InlineDecided(ts)
    ensures ArmTargetDecided(ts)
  {
    ReferenceParsed(ts);
    hide InlineIn, ParseInline, ReferenceIn, ParseNodeRef;
    forall t, k | ArmTargetIn(t, ts, k)
      ensures ParseMatchTarget(ts) == Ok(t, k)
    {
      if t.ToNode? {
        assert ReferenceIn(t.node, ts, k);
        ReferenceFirst(t.node, ts, k);
      } else {
        assert InlineIn(t.endpoint, ts, k) && !IsIdentFirst(ts);
      }
    }
  }

  lemma GuardParsed(ts: List)
    requires
      var node := ParseNodeRef(ts);
      node.Ok? && Starts(LParen, node.rest) && Peek(node.rest.tail) != RParen ==> ItemsDecided([], RParen, node.rest.tail)
    ensures GuardDecided(ts)
  {
    ReferenceParsed(ts);
    hide ReferenceIn, ParseNodeRef, ItemsIn, InlineList;
    var r, node := Guard(ts), ParseNodeRef(ts);
    if r.Ok? && r.value.Call? {
      assert ReferenceIn(node.value, ts, node.rest);
      ReferenceFirst(node.value, ts, node.rest);
      if Peek(node.rest.tail) != RParen {
        var args := InlineList([], RParen, node.rest.tail);
        assert args.value[0..] == args.value;
        ItemsFirst(args.value, RParen, node.rest.tail, args.rest);
      }
      assert GuardIn(r.value, ts, r.rest);
    }
    forall g, k | GuardIn(g, ts, k)
      ensures r == Ok(g, k)
    {
      if g.Call? {
        var mid: List :|
          && ReferenceIn(g.node, ts, mid) && Starts(LParen, mid)
          && if g.args == [] then One(RParen, mid.tail, k) else ItemsIn(g.args, RParen, mid.tail, k);
        ReferenceFirst(g.node, ts, mid);
        if g.args != [] {
          ItemsFirst(g.args, RParen, mid.tail, k);
          assert [] + g.args == g.args;
        }
      }
    }
  }

  lemma ArmSplit(arms: seq<MatchArm>, ts: List, k: List)
    requires ArmsIn(arms, ts, k)
    ensures
      arms != [] && (arms[0].guard.Fallback? <==> |arms| == 1) && exists mid: List, end: List ::
        && GuardIn(arms[0].guard, ts, mid) && Starts(Arrow, mid) && ArmTargetIn(arms[0].target, mid.tail, end)
        && if |arms| == 1 then One(RBrace, end, k) else ArmsIn(arms[1..], end, k)
  {
    hide GuardIn, ArmTargetIn;
    var end: List :| ArmIn(arms[0], ts, end) && if |arms| == 1 then One(RBrace, end, k) else ArmsIn(arms[1..], end, k);
  }

  lemma ArmJoin(arms: seq<MatchArm>, ts: List, mid: List, end: List, k: List)
    requires arms != [] && (arms[0].guard.Fallback? <==> |arms| == 1)
    requires GuardIn(arms[0].guard, ts, mid) && Starts(Arrow, mid) && ArmTargetIn(arms[0].target, mid.tail, end)
    requires if |arms| == 1 then One(RBrace, end, k) else ArmsIn(arms[1..], end, k)
    ensures ArmsIn(arms, ts, k)
  {
    hide GuardIn, ArmTargetIn;
    assert ArmIn(arms[0], ts, end);
  }

  lemma ArmsFirst(arms: seq<MatchArm>, ts: List, k: List)
    requires ArmsIn(arms, ts, k)
    ensures arms != [] && IsIdentFirst(ts)
  {
    ArmSplit(arms, ts, k);
    hide ArmsIn, GuardIn, ArmTargetIn;
    var mid: List :| GuardIn(arms[0].guard, ts, mid);
    GuardFirst(arms[0].guard, ts, mid);
  }

  lemma GuardFirst(g: MatchGuard, ts: List, k: List)
    requires GuardIn(g, ts, k)
    ensures IsIdentFirst(ts)
  {
    hide ItemsIn, ReferenceIn;
    if g.Call? {
      var mid: List :| ReferenceIn(g.node, ts, mid);
      ReferenceFirst(g.node, ts, mid);
    }
  }

  // ---- All at once ----

  lemma {:induction false} AtomParsed(ts: List)
    ensures AtomDecided(ts)
    decreases ts, 0
  {
    hide AtomDecided, InlineDecided, ItemsDecided, MoreItemsDecided, FieldsDecided;
    if Starts(LParen, ts) {
      if Peek(ts.tail) != RParen {
        InlineParsed(ts.tail);
        var first := ParseInline(ts.tail);
        if first.Ok? && Starts(Comma, first.rest) {
          InlineParsed(first.rest.tail);
          var second := ParseInline(first.rest.tail);
          if second.Ok? { MoreItemsParsed([first.value, second.value], second.rest); }
        }
      }
      TupleParsed(ts);
    } else if Starts(LBracket, ts) {
      if Peek(ts.tail) != RBracket { ItemsParsed([], RBracket, ts.tail); }
      SeqParsed(ts);
    } else if IsIdentFirst(ts) {
      if Starts(LBrace, ts.tail) && Peek(ts.tail.tail) != RBrace { FieldsParsed([], ts.tail.tail); }
      StructParsed(ts);
    } else {
      LeafParsed(ts);
    }
  }

  lemma {:induction false} InlineParsed(ts: List)
    ensures InlineDecided(ts)
    decreases ts, 3
  {
    hide AtomDecided, InlineDecided, StagesDecided;
    AtomParsed(ts);
    if ParseAtom(ts).Ok? { StagesParsed([], ParseAtom(ts).rest); }
    ChainOfStages(ts);
  }

  lemma {:induction false} MoreItemsParsed(acc: seq<Endpoint>, ts: List)
    ensures MoreItemsDecided(acc, ts)
    decreases ts, 4
  {
    var r := TupleItems(acc, ts);
    hide MoreItemsIn, ParseInline, InlineDecided;
    if Starts(Comma, ts) {
      InlineParsed(ts.tail);
      var item := ParseInline(ts.tail);
      if item.Ok? { MoreItemsParsed(acc + [item.value], item.rest); }
    }
    if r.Ok? {
      MoreItemsStep(r.value[|acc|..], ts, r.rest);
      if Starts(Comma, ts) { assert r.value[|acc|..][1..] == r.value[|acc| + 1..]; }
    }
    forall items, k | MoreItemsIn(items, ts, k)
      ensures r == Ok(acc + items, k)
    {
      MoreItemsStep(items, ts, k);
      if items != [] { assert acc + items == acc + [items[0]] + items[1..]; } else { assert acc + items == acc; }
    }
  }

  lemma {:induction false} ItemsParsed(acc: seq<Endpoint>, close: Token, ts: List)
    requires close == RParen || close == RBracket
    ensures ItemsDecided(acc, close, ts)
    decreases ts, 4
  {
    hide ItemsIn, ParseInline, InlineDecided;
    InlineParsed(ts);
    var r, first := InlineList(acc, close, ts), ParseInline(ts);
    if first.Ok? {
      var mid, next := first.rest, acc + [first.value];
      var ends := Peek(mid) != Comma || Peek(Next(mid)) == close;
      if !ends { ItemsParsed(next, close, mid.tail); }
      if r.Ok? {
        ItemsStep(r.value[|acc|..], close, ts, r.rest);
        if ends {
          assert r.value[|acc|..] == [first.value];
        } else {
          assert r.value[|acc|..][1..] == r.value[|next|..];
          ItemsFirst(r.value[|next|..], close, mid.tail, r.rest);
        }
      }
      forall items, k | ItemsIn(items, close, ts, k)
        ensures r == Ok(acc + items, k)
      {
        ItemsStep(items, close, ts, k);
        assert acc + items == next + items[1..];
        if |items| > 1 { ItemsFirst(items[1..], close, mid.tail, k); } else { assert next + items[1..] == next; }
      }
    }
    forall items, k | ItemsIn(items, close, ts, k)
      ensures first.Ok?
    {
      ItemsStep(items, close, ts, k);
    }
  }

  lemma {:induction false} FieldsParsed(acc: seq<Field>, ts: List)
    ensures FieldsDecided(acc, ts)
    decreases ts, 4
  {
    hide FieldsIn, ParseInline, InlineDecided;
    var r := StructFields(acc, ts);
    if IsIdentFirst(ts) && Starts(Colon, ts.tail) {
      InlineParsed(ts.tail.tail);
      var first := ParseInline(ts.tail.tail);
      if first.Ok? {
        var mid, next := first.rest, acc + [Field(ts.head.name, first.value)];
        var ends := Peek(mid) != Comma || Peek(Next(mid)) == RBrace;
        if !ends { FieldsParsed(next, mid.tail); }
        if r.Ok? {
          FieldsStep(r.value[|acc|..], ts, r.rest);
          if ends {
            assert r.value[|acc|..] == [Field(ts.head.name, first.value)];
          } else {
            assert r.value[|acc|..][1..] == r.value[|next|..];
            FieldsFirst(r.value[|next|..], mid.tail, r.rest);
          }
        }
        forall fields, k | FieldsIn(fields, ts, k)
          ensures r == Ok(acc + fields, k)
        {
          FieldsStep(fields, ts, k);
          assert acc + fields == next + fields[1..];
          if |fields| > 1 { FieldsFirst(fields[1..], mid.tail, k); } else { assert next + fields[1..] == next; }
        }
      }
    }
    forall fields, k | FieldsIn(fields, ts, k)
      ensures IsIdentFirst(ts) && Starts(Colon, ts.tail) && ParseInline(ts.tail.tail).Ok?
    {
      FieldsStep(fields, ts, k);
    }
  }

  lemma {:induction false} StagesParsed(acc: seq<Stage>, ts: List)
    ensures StagesDecided(acc, ts)
    decreases ts, 2
  {
    var r := Stages(acc, ts);
    hide StagesIn, ParseStage, StageDecided;
    if Starts(Arrow, ts) {
      StageParsed(ts.tail);
      var stage := ParseStage(ts.tail);
      if stage.Ok? { StagesParsed(acc + [stage.value], stage.rest); }
    }
    if r.Ok? {
      StagesStep(r.value[|acc|..], ts, r.rest);
      if Starts(Arrow, ts) { assert r.value[|acc|..][1..] == r.value[|acc| + 1..]; }
    }
    forall stages, k | StagesIn(stages, ts, k)
      ensures r == Ok(acc + stages, k)
    {
      StagesStep(stages, ts, k);
      if stages != [] { assert acc + stages == acc + [stages[0]] + stages[1..]; } else { assert acc + stages == acc; }
    }
  }

  lemma {:induction false} StageParsed(ts: List)
    ensures StageDecided(ts)
    decreases ts, 1
  {
    hide StageDecided, AtomDecided, IdentityDecided, ArmsDecided, TargetDecided;
    if IsIdentFirst(ts) && ts.head.name in ["repeat", "reduce", "scan", "match"] {
      var rest := ts.tail;
      if ts.head.name == "repeat" && Starts(Less, rest) {
        AtomParsed(rest.tail);
      } else if ts.head.name in ["reduce", "scan"] && ParseNodeRef(rest).Ok? {
        var node := ParseNodeRef(rest).rest;
        if Starts(LParen, node) && Starts(Ident("identity"), node.tail) && Starts(Colon, node.tail.tail) {
          AtomParsed(node.tail.tail.tail);
        }
        IdentityParsed(node);
      } else if ts.head.name == "match" && Starts(LBrace, rest) {
        ArmsParsed([], rest.tail);
      }
      OperandWords(ts);
    } else {
      if !IsIdentFirst(ts) {
        AtomParsed(ts);
        TargetParsed(ts);
      }
      OtherStages(ts);
    }
  }

  lemma {:induction false} ArmsParsed(acc: seq<MatchArm>, ts: List)
    ensures ArmsDecided(acc, ts)
    decreases ts, 4
  {
    hide GuardDecided, ArmTargetDecided, ItemsDecided, InlineDecided;
    var node, guard := ParseNodeRef(ts), Guard(ts);
    if node.Ok? && Starts(LParen, node.rest) && Peek(node.rest.tail) != RParen { ItemsParsed([], RParen, node.rest.tail); }
    GuardParsed(ts);
    if guard.Ok? && Starts(Arrow, guard.rest) {
      var next := guard.rest.tail;
      if !IsIdentFirst(next) { InlineParsed(next); }
      ArmTargetParsed(next);
      var target := ParseMatchTarget(next);
      if target.Ok? && !guard.value.Fallback? { ArmsParsed(acc + [MatchArm(guard.value, target.value)], target.rest); }
    }
    hide Guard, ParseNodeRef, ParseMatchTarget;
    OneArmParsed(acc, ts);
  }

  /** What has to be known about an arm and those after it. */
  ghost predicate ArmPartsDecided(acc: seq<MatchArm>, ts: List)
  {
    var guard := Guard(ts);
    && GuardDecided(ts)
    && (guard.Ok? && Starts(Arrow, guard.rest) ==>
          && ArmTargetDecided(guard.rest.tail)
          && var target := ParseMatchTarget(guard.rest.tail);
             target.Ok? && !guard.value.Fallback? ==>
               ArmsDecided(acc + [MatchArm(guard.value, target.value)], target.rest))
  }

  lemma ArmsUnfold(acc: seq<MatchArm>, ts: List)
    ensures
      var r, guard := Arms(acc, false, ts), Guard(ts);
      if Peek(ts) == RBrace || guard.Fail? || !Starts(Arrow, guard.rest) then r.Fail?
      else
        var target := ParseMatchTarget(guard.rest.tail);
        if target.Fail? then r.Fail?
        else
          var next := acc + [MatchArm(guard.value, target.value)];
          r == if !guard.value.Fallback? then Arms(next, false, target.rest)
               else if Starts(RBrace, target.rest) then Ok(next, target.rest.tail) else Fail
  {
    hide Guard, ParseMatchTarget;
  }

  lemma OneArmIsIn(acc: seq<MatchArm>, ts: List)
    requires ArmPartsDecided(acc, ts) && Arms(acc, false, ts).Ok?
    ensures
      var r := Arms(acc, false, ts);
      acc <= r.value && ArmsIn(r.value[|acc|..], ts, r.rest)
  {
    ArmsUnfold(acc, ts);
    hide Arms, Guard, ParseMatchTarget, ArmsIn, GuardIn, ArmTargetIn;
    var r, guard := Arms(acc, false, ts), Guard(ts);
    var target := ParseMatchTarget(guard.rest.tail);
    var arm := MatchArm(guard.value, target.value);
    var next := acc + [arm];
    var arms := r.value[|acc|..];
    if guard.value.Fallback? {
      assert arms == [arm];
    } else {
      assert arms[1..] == r.value[|next|..];
      ArmsFirst(r.value[|next|..], target.rest, r.rest);
    }
    ArmJoin(arms, ts, guard.rest, target.rest, r.rest);
  }

  /** The guard and the target of the first arm are read as they stand. */
  lemma FirstArmRead(acc: seq<MatchArm>, arms: seq<MatchArm>, ts: List, k: List) returns (mid: List, end: List)
    requires ArmPartsDecided(acc, ts) && ArmsIn(arms, ts, k)
    ensures arms != [] && IsIdentFirst(ts) && (arms[0].guard.Fallback? <==> |arms| == 1)
    ensures Guard(ts) == Ok(arms[0].guard, mid) && Starts(Arrow, mid)
    ensures ParseMatchTarget(mid.tail) == Ok(arms[0].target, end)
    ensures if |arms| == 1 then One(RBrace, end, k) else ArmsIn(arms[1..], end, k)
    ensures |arms| > 1 ==> ArmsDecided(acc + [arms[0]], end)
  {
    hide Guard, ParseMatchTarget, ArmsIn, GuardIn, ArmTargetIn, ArmsDecided;
    ArmsFirst(arms, ts, k);
    ArmSplit(arms, ts, k);
    mid, end :|
      && GuardIn(arms[0].guard, ts, mid) && Starts(Arrow, mid) && ArmTargetIn(arms[0].target, mid.tail, end)
      && if |arms| == 1 then One(RBrace, end, k) else ArmsIn(arms[1..], end, k);
    assert arms[0] == MatchArm(arms[0].guard, arms[0].target);
  }

  lemma OneArmIsParsed(acc: seq<MatchArm>, arms: seq<MatchArm>, ts: List, k: List)
    requires ArmPartsDecided(acc, ts) && ArmsIn(arms, ts, k)
    ensures Arms(acc, false, ts) == Ok(acc + arms, k)
  {
    hide Arms, Guard, ParseMatchTarget, ArmsIn, ArmPartsDecided;
    var mid, end := FirstArmRead(acc, arms, ts, k);
    var next := acc + [arms[0]];
    assert arms[0] == MatchArm(arms[0].guard, arms[0].target);
    assert acc + arms == next + arms[1..];
    if |arms| == 1 { assert next + arms[1..] == next; }
    ArmsUnfold(acc, ts);
  }

  lemma OneArmParsed(acc: seq<MatchArm>, ts: List)
    requires ArmPartsDecided(acc, ts)
    ensures ArmsDecided(acc, ts)
  {
    hide ArmPartsDecided, Arms, ArmsIn;
    if Arms(acc, false, ts).Ok? { OneArmIsIn(acc, ts); }
    forall arms, k | ArmsIn(arms, ts, k)
      ensures Arms(acc, false, ts) == Ok(acc + arms, k)
    {
      OneArmIsParsed(acc, arms, ts, k);
    }
  }

  // ---- Types and ports ----

  /** What has been read of a type so far. */
  predicate TypeBegins(text: TypeText, depth: nat)
  {
    DepthOf(text) == depth && forall i :: 0 <= i < |text| ==> InType(text[i], i == 0, DepthOf(text[..i]))
  }

  lemma TypeGoesOn(empty: bool, depth: nat, t: Token)
    ensures ContinuesType(empty, depth, t) <==> InType(t, empty, depth)
    ensures StopsType(t) <==> EndsType(t)
    ensures EndsType(t) ==> !InType(t, false, 0)
    ensures InType(t, empty, depth) ==> t != Eof
  {
    assert t.Ident? ==> (BeginsDeclaration(t) <==> IsDeclarationWord(t.name));
    hide BeginsDeclaration, IsDeclarationWord;
  }

  lemma TypeGrows(text: TypeText, depth: nat, t: Token)
    requires TypeBegins(text, depth) && InType(t, text == [], depth)
    ensures (t == RParen || t == RBracket ==> depth > 0) && TypeBegins(text + [t], DepthAfter(depth, t))
  {
    var more := text + [t];
    assert more[..|text|] == text && more[|text|] == t;
    forall i | 0 <= i < |more|
      ensures InType(more[i], i == 0, DepthOf(more[..i]))
    {
      if i < |text| { assert more[..i] == text[..i]; }
    }
  }

  lemma {:induction false} TypeTailParsed(text: TypeText, depth: nat, ts: List)
    requires TypeBegins(text, depth)
    ensures
      var r := TypeTail(text, depth, ts);
      r.Ok? ==>
        && text <= r.value && IsTypeText(r.value) && ts == TkType(r.value[|text|..], r.rest)
        && EndsType(Peek(r.rest))
    ensures
      forall more, k :: IsTypeText(text + more) && ts == TkType(more, k) && EndsType(Peek(k)) ==>
        TypeTail(text, depth, ts) == Ok(text + more, k)
    decreases ts
  {
    hide InType, ContinuesType, StopsType, EndsType, IsTypeText, TypeBegins;
    var t, r := Peek(ts), TypeTail(text, depth, ts);
    TypeGoesOn(text == [], depth, t);
    if ContinuesType(text == [], depth, t) {
      TypeGrows(text, depth, t);
      TypeTailParsed(text + [t], DepthAfter(depth, t), Next(ts));
      if r.Ok? { TypeSplit(text, t, r.value, r.rest); }
    } else if r.Ok? {
      TypeEnded(text);
      assert r.value[|text|..] == [];
    }
    hide TypeTail;
    forall more, k | IsTypeText(text + more) && ts == TkType(more, k) && EndsType(Peek(k))
      ensures r == Ok(text + more, k)
    {
      TypeIsRead(text, depth, ts, more, k);
    }
  }

  lemma TypeEnded(text: TypeText)
    requires TypeBegins(text, 0) && text != []
    ensures IsTypeText(text)
  {}

  lemma TypeSplit(text: TypeText, t: Token, all: TypeText, k: List)
    requires text + [t] <= all
    ensures text <= all && TkType(all[|text|..], k) == Cons(t, TkType(all[|text| + 1..], k))
  {
    assert all[|text|..] == [t] + all[|text| + 1..];
  }

  lemma TypeIsRead(text: TypeText, depth: nat, ts: List, more: TypeText, k: List)
    requires TypeBegins(text, depth) && IsTypeText(text + more) && ts == TkType(more, k) && EndsType(Peek(k))
    requires
      var t := Peek(ts);
      ContinuesType(text == [], depth, t) && (t.RParen? || t.RBracket? ==> depth > 0) ==>
        forall m, k' :: IsTypeText(text + [t] + m) && Next(ts) == TkType(m, k') && EndsType(Peek(k')) ==>
          TypeTail(text + [t], DepthAfter(depth, t), Next(ts)) == Ok(text + [t] + m, k')
    ensures TypeTail(text, depth, ts) == Ok(text + more, k)
  {
    hide ContinuesType, InType, EndsType, StopsType, DepthOf, TypeBegins;
    var all, t := text + more, Peek(ts);
    TypeGoesOn(text == [], depth, t);
    TypeNext(text, depth, more);
    if more == [] {
      assert all == text;
    } else {
      TypeGrows(text, depth, t);
      assert text + [t] + more[1..] == all;
    }
  }

  lemma TypeNext(text: TypeText, depth: nat, more: TypeText)
    requires TypeBegins(text, depth) && IsTypeText(text + more)
    ensures more == [] ==> depth == 0 && text != []
    ensures more != [] ==> InType(more[0], text == [], depth)
  {
    hide InType;
    var all := text + more;
    assert all[..|text|] == text;
    if more == [] { assert all == text; } else { assert all[|text|] == more[0]; }
  }

  lemma TypeParsed(ts: List)
    ensures ParseType(ts).Ok? ==> TypeIn(ParseType(ts).value, ts, ParseType(ts).rest)
    ensures forall ty, k :: TypeIn(ty, ts, k) ==> ParseType(ts) == Ok(ty, k)
  {
    var none: TypeText := [];
    assert TypeBegins(none, 0);
    TypeTailParsed(none, 0, ts);
    hide IsTypeText, EndsType;
    var r := ParseType(ts);
    if r.Ok? { assert r.value[0..] == r.value; }
    forall ty, k | TypeIn(ty, ts, k)
      ensures r == Ok(ty, k)
    {
      assert none + ty == ty;
    }
  }

  lemma PortParsed(ts: List)
    ensures ParsePort(ts).Ok? ==> PortIn(ParsePort(ts).value, ts, ParsePort(ts).rest)
    ensures forall p, k :: PortIn(p, ts, k) ==> ParsePort(ts) == Ok(p, k)
  {
    if IsIdentFirst(ts) && Starts(Colon, ts.tail) { TypeParsed(ts.tail.tail); }
    hide TypeIn, ParseType;
  }

  lemma MorePortsStep(ps: seq<Port>, ts: List, k: List)
    ensures
      MorePortsIn(ps, ts, k)
      <==> if ps == [] then ts == k && Peek(k) != Comma
           else
             && Starts(Comma, ts) && ParsePort(ts.tail).Ok? && ParsePort(ts.tail).value == ps[0]
             && MorePortsIn(ps[1..], ParsePort(ts.tail).rest, k)
  {
    hide PortIn, ParsePort;
    if Starts(Comma, ts) { PortParsed(ts.tail); }
  }

  lemma {:induction false} MorePortsParsed(acc: seq<Port>, ts: List)
    ensures
      var r := PortTail(acc, ts);
      r.Ok? ==> acc <= r.value && MorePortsIn(r.value[|acc|..], ts, r.rest)
    ensures forall ps, k :: MorePortsIn(ps, ts, k) ==> PortTail(acc, ts) == Ok(acc + ps, k)
    decreases ts
  {
    hide MorePortsIn, ParsePort;
    var r := PortTail(acc, ts);
    if Starts(Comma, ts) {
      var port := ParsePort(ts.tail);
      if port.Ok? { MorePortsParsed(acc + [port.value], port.rest); }
    }
    if r.Ok? {
      MorePortsStep(r.value[|acc|..], ts, r.rest);
      if Starts(Comma, ts) { assert r.value[|acc|..][1..] == r.value[|acc| + 1..]; }
    }
    forall ps, k | MorePortsIn(ps, ts, k)
      ensures r == Ok(acc + ps, k)
    {
      MorePortsStep(ps, ts, k);
      if ps != [] { assert acc + ps == acc + [ps[0]] + ps[1..]; } else { assert acc + ps == acc; }
    }
  }

  lemma PortListParsed(ts: List)
    requires Starts(LParen, ts)
    ensures
      var r := PortList(ts.tail);
      r.Ok? && Starts(RParen, r.rest) ==> PortListIn(r.value, ts, r.rest.tail)
    ensures forall ps, k :: PortListIn(ps, ts, k) ==> PortList(ts.tail) == Ok(ps, Cons(RParen, k))
  {
    hide PortIn, ParsePort, MorePortsIn, PortTail;
    PortParsed(ts.tail);
    var r, first := PortList(ts.tail), ParsePort(ts.tail);
    if first.Ok? { MorePortsParsed([first.value], first.rest); }
    forall ps, k | PortListIn(ps, ts, k)
      ensures r == Ok(ps, Cons(RParen, k))
    {
      assert ps == [ps[0]] + ps[1..];
    }
  }

  lemma PortListFirst(ps: seq<Port>, ts: List, k: List)
    requires PortListIn(ps, ts, k)
    ensures ps != [] && Starts(LParen, ts) && IsIdentFirst(ts.tail)
  {
    hide MorePortsIn, TypeIn;
  }

  lemma InputsParsed(ts: List)
    ensures Inputs(ts).Ok? ==> InputsIn(Inputs(ts).value, ts, Inputs(ts).rest)
    ensures forall ps, k :: InputsIn(ps, ts, k) ==> Inputs(ts) == Ok(ps, k)
  {
    hide PortListIn, PortList;
    if Starts(LParen, ts) { PortListParsed(ts); }
    var r := Inputs(ts);
    if r.Ok? && Peek(ts.tail) != RParen { PortListFirst(r.value, ts, r.rest); }
    forall ps, k | InputsIn(ps, ts, k)
      ensures r == Ok(ps, k)
    {
      if ps != [] { PortListFirst(ps, ts, k); }
    }
  }

  lemma OutputsParsed(ts: List)
    ensures PortOrList(ts).Ok? ==> OutputsIn(PortOrList(ts).value, ts, PortOrList(ts).rest)
    ensures forall ps, k :: OutputsIn(ps, ts, k) ==> PortOrList(ts) == Ok(ps, k)
  {
    hide PortListIn, PortList, ParsePort, TypeIn;
    if Starts(LParen, ts) { PortListParsed(ts); } else { PortParsed(ts); }
    forall ps, k | OutputsIn(ps, ts, k)
      ensures PortOrList(ts) == Ok(ps, k)
    {
      if PortListIn(ps, ts, k) { PortListFirst(ps, ts, k); } else { assert ps == [ps[0]]; }
    }
  }

  // ---- Declarations ----

  lemma StructPortsFirst(ps: seq<Port>, ts: List, k: List)
    requires StructPortsIn(ps, ts, k)
    ensures ps != [] && IsIdentFirst(ts)
  {}

  lemma StructPortsStep(ps: seq<Port>, ts: List, k: List)
    ensures
      StructPortsIn(ps, ts, k)
      <==> && ps != [] && ParsePort(ts).Ok? && ps[0] == ParsePort(ts).value
           && var mid := ParsePort(ts).rest;
              if |ps| == 1 then Closes(RBrace, mid, k)
              else Starts(Comma, mid) && StructPortsIn(ps[1..], mid.tail, k)
  {
    hide PortIn, ParsePort;
    PortParsed(ts);
  }

  lemma {:induction false} StructPortsParsed(acc: seq<Port>, ts: List)
    ensures
      var r := StructPorts(acc, ts);
      r.Ok? ==> acc <= r.value && StructPortsIn(r.value[|acc|..], ts, r.rest)
    ensures forall ps, k :: StructPortsIn(ps, ts, k) ==> StructPorts(acc, ts) == Ok(acc + ps, k)
    decreases ts
  {
    hide StructPortsIn, ParsePort;
    var r, first := StructPorts(acc, ts), ParsePort(ts);
    if first.Ok? {
      var mid, next := first.rest, acc + [first.value];
      var ends := Peek(mid) != Comma || Peek(Next(mid)) == RBrace;
      if !ends { StructPortsParsed(next, mid.tail); }
      if r.Ok? {
        StructPortsStep(r.value[|acc|..], ts, r.rest);
        if ends {
          assert r.value[|acc|..] == [first.value];
        } else {
          assert r.value[|acc|..][1..] == r.value[|next|..];
          StructPortsFirst(r.value[|next|..], mid.tail, r.rest);
        }
      }
      forall ps, k | StructPortsIn(ps, ts, k)
        ensures r == Ok(acc + ps, k)
      {
        StructPortsStep(ps, ts, k);
        assert acc + ps == next + ps[1..];
        if |ps| > 1 { StructPortsFirst(ps[1..], mid.tail, k); } else { assert next + ps[1..] == next; }
      }
    }
    forall ps, k | StructPortsIn(ps, ts, k)
      ensures first.Ok?
    {
      StructPortsStep(ps, ts, k);
    }
  }

  lemma ImportItemParsed(ts: List)
    ensures ParseItem(ts).Ok? ==> ItemIn(ParseItem(ts).value, ts, ParseItem(ts).rest)
    ensures forall item, k :: ItemIn(item, ts, k) ==> ParseItem(ts) == Ok(item, k)
  {}

  lemma ImportItemsFirst(items: seq<ImportItem>, ts: List, k: List)
    requires ImportItemsIn(items, ts, k)
    ensures items != [] && IsIdentFirst(ts)
  {}

  lemma ImportItemsStep(items: seq<ImportItem>, ts: List, k: List)
    ensures
      ImportItemsIn(items, ts, k)
      <==> && items != [] && ParseItem(ts).Ok? && items[0] == ParseItem(ts).value
           && var mid := ParseItem(ts).rest;
              if |items| == 1 then Closes(RBrace, mid, k)
              else Starts(Comma, mid) && ImportItemsIn(items[1..], mid.tail, k)
  {
    hide ItemIn, ParseItem;
    ImportItemParsed(ts);
  }

  lemma {:induction false} ImportItemsParsed(acc: seq<ImportItem>, ts: List)
    ensures
      var r := ImportItems(acc, ts);
      r.Ok? ==> acc <= r.value && ImportItemsIn(r.value[|acc|..], ts, r.rest)
    ensures forall items, k :: ImportItemsIn(items, ts, k) ==> ImportItems(acc, ts) == Ok(acc + items, k)
    decreases ts
  {
    hide ImportItemsIn, ParseItem;
    var r, first := ImportItems(acc, ts), ParseItem(ts);
    if first.Ok? {
      var mid, next := first.rest, acc + [first.value];
      var ends := Peek(mid) != Comma || Peek(Next(mid)) == RBrace;
      if !ends { ImportItemsParsed(next, mid.tail); }
      if r.Ok? {
        ImportItemsStep(r.value[|acc|..], ts, r.rest);
        if ends {
          assert r.value[|acc|..] == [first.value];
        } else {
          assert r.value[|acc|..][1..] == r.value[|next|..];
          ImportItemsFirst(r.value[|next|..], mid.tail, r.rest);
        }
      }
      forall items, k | ImportItemsIn(items, ts, k)
        ensures r == Ok(acc + items, k)
      {
        ImportItemsStep(items, ts, k);
        assert acc + items == next + items[1..];
        if |items| > 1 { ImportItemsFirst(items[1..], mid.tail, k); } else { assert next + items[1..] == next; }
      }
    }
    forall items, k | ImportItemsIn(items, ts, k)
      ensures first.Ok?
    {
      ImportItemsStep(items, ts, k);
    }
  }

  lemma SourceParsed(ts: List)
    ensures ParseSource(ts).Ok? ==> SourceIn(ParseSource(ts).value, ts, ParseSource(ts).rest)
    ensures forall source, k :: SourceIn(source, ts, k) ==> ParseSource(ts) == Ok(source, k)
  {
    NameParsed(ts);
    hide SegmentsIn, QIdent;
  }

  lemma OriginParsed(ts: List)
    ensures
      var r := ParseForeignHead(ts);
      r.Ok? ==> OriginIn(r.value.0, r.value.1, ts, r.rest)
    ensures
      forall language, origin, k :: OriginIn(language, origin, ts, k) ==> ParseForeignHead(ts) == Ok((language, origin), k)
  {}

  lemma ForeignNodeParsed(ts: List)
    ensures ParseForeignNode(ts).Ok? ==> ForeignNodeIn(ParseForeignNode(ts).value, ts, ParseForeignNode(ts).rest)
    ensures forall n, k :: ForeignNodeIn(n, ts, k) ==> ParseForeignNode(ts) == Ok(n, k)
  {
    hide InputsIn, Inputs, OutputsIn, PortOrList, NameIn, QIdent;
    var r := ParseForeignNode(ts);
    if IsIdentFirst(ts) && Starts(Ident("node"), ts.tail) && IsIdentFirst(ts.tail.tail) {
      InputsParsed(ts.tail.tail.tail);
      var inputs := Inputs(ts.tail.tail.tail);
      if inputs.Ok? && Starts(Arrow, inputs.rest) {
        OutputsParsed(inputs.rest.tail);
        var outputs := PortOrList(inputs.rest.tail);
        if outputs.Ok? && Starts(Equal, outputs.rest) { NameParsed(outputs.rest.tail); }
      }
    }
  }

  lemma ForeignNodesStep(ns: seq<ForeignNode>, ts: List, k: List)
    ensures
      ForeignNodesIn(ns, ts, k)
      <==> && ns != [] && ParseForeignNode(ts).Ok? && ns[0] == ParseForeignNode(ts).value
           && var mid := ParseForeignNode(ts).rest;
              if |ns| == 1 then One(RBrace, mid, k) else ForeignNodesIn(ns[1..], mid, k)
    ensures ForeignNodesIn(ns, ts, k) ==> IsIdentFirst(ts)
  {
    hide ParseForeignNode, InputsIn, OutputsIn, NameIn;
    ForeignNodeParsed(ts);
  }

  /** After the first node the block may end. */
  lemma {:induction false} ForeignNodesParsed(acc: seq<ForeignNode>, ts: List)
    ensures
      var r := ForeignNodes(acc, ts);
      r.Ok? ==>
        acc <= r.value && if Peek(ts) == RBrace then r.value == acc && r.rest == Next(ts)
                          else ForeignNodesIn(r.value[|acc|..], ts, r.rest)
    ensures forall ns, k :: ForeignNodesIn(ns, ts, k) ==> ForeignNodes(acc, ts) == Ok(acc + ns, k)
    decreases ts
  {
    hide ForeignNodesIn, ParseForeignNode;
    var r, first := ForeignNodes(acc, ts), ParseForeignNode(ts);
    if Peek(ts) != RBrace && first.Ok? {
      var next := acc + [first.value];
      ForeignNodesParsed(next, first.rest);
      if r.Ok? {
        ForeignNodesStep(r.value[|acc|..], ts, r.rest);
        if Peek(first.rest) == RBrace {
          assert r.value[|acc|..] == [first.value];
        } else {
          assert r.value[|acc|..][1..] == r.value[|next|..];
          ForeignNodesStep(r.value[|next|..], first.rest, r.rest);
        }
      }
      forall ns, k | ForeignNodesIn(ns, ts, k)
        ensures r == Ok(acc + ns, k)
      {
        ForeignNodesStep(ns, ts, k);
        assert acc + ns == next + ns[1..];
        if |ns| == 1 { assert next + ns[1..] == next; }
      }
    }
    forall ns, k | ForeignNodesIn(ns, ts, k)
      ensures first.Ok? && Peek(ts) != RBrace
    {
      ForeignNodesStep(ns, ts, k);
    }
  }

  lemma ParamInputParsed(ts: List)
    ensures ParamInput(ts).Ok? ==> ParamInputIn(ParamInput(ts).value, ts, ParamInput(ts).rest)
    ensures forall ty, k :: ParamInputIn(ty, ts, k) ==> ParamInput(ts) == Ok(ty, k)
  {
    hide TypeIn, ParseType;
    if Starts(LParen, ts) { TypeParsed(ts.tail); }
  }

  lemma ParamParsed(ts: List)
    ensures ParseParam(ts).Ok? ==> ParamIn(ParseParam(ts).value, ts, ParseParam(ts).rest)
    ensures forall p, k :: ParamIn(p, ts, k) ==> ParseParam(ts) == Ok(p, k)
  {
    hide TypeIn, ParseType, ParamInputIn, ParamInput;
    if IsIdentFirst(ts) && Starts(Colon, ts.tail) && Starts(Ident("node"), ts.tail.tail) {
      ParamInputParsed(ts.tail.tail.tail);
      var input := ParamInput(ts.tail.tail.tail);
      if input.Ok? && Starts(Arrow, input.rest) { TypeParsed(input.rest.tail); }
    }
  }

  lemma ParamListFirst(ps: seq<NodeParam>, ts: List, k: List)
    requires ParamListIn(ps, ts, k)
    ensures ps != [] && IsIdentFirst(ts)
  {}

  lemma ParamListStep(ps: seq<NodeParam>, ts: List, k: List)
    ensures
      ParamListIn(ps, ts, k)
      <==> && ps != [] && ParseParam(ts).Ok? && ps[0] == ParseParam(ts).value
           && var mid := ParseParam(ts).rest;
              if |ps| == 1 then Closes(Greater, mid, k)
              else Starts(Comma, mid) && ParamListIn(ps[1..], mid.tail, k)
  {
    hide ParamIn, ParseParam;
    ParamParsed(ts);
  }

  lemma {:induction false} ParamListParsed(acc: seq<NodeParam>, ts: List)
    ensures
      var r := NodeParams(acc, ts);
      r.Ok? ==> acc <= r.value && ParamListIn(r.value[|acc|..], ts, r.rest)
    ensures forall ps, k :: ParamListIn(ps, ts, k) ==> NodeParams(acc, ts) == Ok(acc + ps, k)
    decreases ts
  {
    hide ParamListIn, ParseParam;
    var r, first := NodeParams(acc, ts), ParseParam(ts);
    if first.Ok? {
      var mid, next := first.rest, acc + [first.value];
      var ends := Peek(mid) != Comma || Peek(Next(mid)) == Greater;
      if !ends { ParamListParsed(next, mid.tail); }
      if r.Ok? {
        ParamListStep(r.value[|acc|..], ts, r.rest);
        if ends {
          assert r.value[|acc|..] == [first.value];
        } else {
          assert r.value[|acc|..][1..] == r.value[|next|..];
          ParamListFirst(r.value[|next|..], mid.tail, r.rest);
        }
      }
      forall ps, k | ParamListIn(ps, ts, k)
        ensures r == Ok(acc + ps, k)
      {
        ParamListStep(ps, ts, k);
        assert acc + ps == next + ps[1..];
        if |ps| > 1 { ParamListFirst(ps[1..], mid.tail, k); } else { assert next + ps[1..] == next; }
      }
    }
    forall ps, k | ParamListIn(ps, ts, k)
      ensures first.Ok?
    {
      ParamListStep(ps, ts, k);
    }
  }

  lemma ParamsParsed(ts: List)
    ensures ParseNodeParams(ts).Ok? ==> ParamsIn(ParseNodeParams(ts).value, ts, ParseNodeParams(ts).rest)
    ensures forall ps, k :: ParamsIn(ps, ts, k) ==> ParseNodeParams(ts) == Ok(ps, k)
  {
    hide ParamListIn, NodeParams;
    var r, none := ParseNodeParams(ts), [];
    if Starts(Less, ts) {
      ParamListParsed(none, ts.tail);
      if r.Ok? {
        assert r.value[0..] == r.value;
        ParamListFirst(r.value, ts.tail, r.rest);
      }
    }
    forall ps, k | ParamsIn(ps, ts, k)
      ensures r == Ok(ps, k)
    {
      if ps != [] {
        ParamListFirst(ps, ts.tail, k);
        assert none + ps == ps;
      }
    }
  }

  lemma ChainParsed(ts: List)
    ensures ParseChain(ts).Ok? ==> ChainIn(ParseChain(ts).value, ts, ParseChain(ts).rest)
    ensures forall c, k :: ChainIn(c, ts, k) ==> ParseChain(ts) == Ok(c, k)
  {
    hide AtomIn, ParseAtom, StagesIn, Stages;
    AtomParsed(ts);
    var r, source := ParseChain(ts), ParseAtom(ts);
    if source.Ok? {
      StagesParsed([], source.rest);
      var stages := Stages([], source.rest);
      if stages.Ok? { assert stages.value[0..] == stages.value; }
    }
    forall c, k | ChainIn(c, ts, k)
      ensures r == Ok(c, k)
    {
      assert [] + c.stages == c.stages;
    }
  }

  lemma ChainFirst(c: Chain, ts: List, k: List)
    requires ChainIn(c, ts, k)
    ensures ts.Cons? && ts.head != RBrace
  {
    hide StagesIn, AtomIn;
    var mid: List :| AtomIn(c.source, ts, mid);
    AtomOpens(c.source, ts, mid);
  }

  lemma AtomOpens(e: Endpoint, ts: List, k: List)
    requires AtomIn(e, ts, k)
    ensures ts.Cons? && ts.head != RBrace
  {
    hide MoreItemsIn, ItemsIn, FieldsIn, InlineIn;
  }

  lemma ChainsStep(cs: seq<Chain>, ts: List, k: List)
    ensures
      ChainsIn(cs, ts, k)
      <==> if cs == [] then One(RBrace, ts, k)
           else ParseChain(ts).Ok? && cs[0] == ParseChain(ts).value && ChainsIn(cs[1..], ParseChain(ts).rest, k)
    ensures ChainsIn(cs, ts, k) && cs != [] ==> Peek(ts) != RBrace
  {
    hide ParseChain, ChainIn;
    ChainParsed(ts);
    if ChainsIn(cs, ts, k) && cs != [] {
      var mid: List :| ChainIn(cs[0], ts, mid);
      ChainFirst(cs[0], ts, mid);
    }
  }

  lemma {:induction false} ChainsParsed(acc: seq<Chain>, ts: List)
    ensures
      var r := Chains(acc, ts);
      r.Ok? ==> acc <= r.value && ChainsIn(r.value[|acc|..], ts, r.rest)
    ensures forall cs, k :: ChainsIn(cs, ts, k) ==> Chains(acc, ts) == Ok(acc + cs, k)
    decreases ts
  {
    hide ChainsIn, ParseChain;
    var r, first := Chains(acc, ts), ParseChain(ts);
    if Peek(ts) != RBrace && first.Ok? { ChainsParsed(acc + [first.value], first.rest); }
    if r.Ok? {
      ChainsStep(r.value[|acc|..], ts, r.rest);
      if Peek(ts) != RBrace { assert r.value[|acc|..][1..] == r.value[|acc| + 1..]; }
    }
    forall cs, k | ChainsIn(cs, ts, k)
      ensures r == Ok(acc + cs, k)
    {
      ChainsStep(cs, ts, k);
      if cs != [] { assert acc + cs == acc + [cs[0]] + cs[1..]; } else { assert acc + cs == acc; }
    }
  }

  /** A callable, but for the word before it. */
  lemma CallableParsed(isExtern: bool, ts: List)
    ensures
      var r := ParseCallable(isExtern, ts);
      r.Ok? ==> r.value.isExtern == isExtern && CallableIn(r.value, ts, r.rest)
    ensures
      forall c, k :: CallableIn(c, ts, k) && c.isExtern == isExtern ==> ParseCallable(isExtern, ts) == Ok(c, k)
  {
    hide ParamsIn, ParseNodeParams, InputsIn, Inputs, OutputsIn, PortOrList, ChainsIn, Chains;
    if IsIdentFirst(ts) {
      ParamsParsed(ts.tail);
      var params := ParseNodeParams(ts.tail);
      if params.Ok? {
        InputsParsed(params.rest);
        var inputs := Inputs(params.rest);
        if inputs.Ok? && Starts(Arrow, inputs.rest) {
          OutputsParsed(inputs.rest.tail);
          var outputs := PortOrList(inputs.rest.tail);
          if outputs.Ok? && Starts(LBrace, outputs.rest) { BodyParsed(outputs.rest.tail); }
        }
      }
    }
  }

  lemma BodyParsed(ts: List)
    ensures Chains([], ts).Ok? ==> ChainsIn(Chains([], ts).value, ts, Chains([], ts).rest)
    ensures forall cs, k :: ChainsIn(cs, ts, k) ==> Chains([], ts) == Ok(cs, k)
  {
    hide ChainsIn, Chains;
    ChainsParsed([], ts);
    var r := Chains([], ts);
    if r.Ok? { assert r.value[0..] == r.value; }
    assert forall cs: seq<Chain> :: [] + cs == cs;
  }

  // ---- Modules ----

  lemma StructDeclParsed(ts: List)
    ensures
      var r := ParseStruct(ts);
      r.Ok? ==>
        && r.value.StructDecl? && Starts(Ident(r.value.name), ts) && Starts(LBrace, ts.tail)
        && StructPortsIn(r.value.fields, ts.tail.tail, r.rest)
    ensures
      forall name, fields, k ::
        Starts(Ident(name), ts) && Starts(LBrace, ts.tail) && StructPortsIn(fields, ts.tail.tail, k) ==>
          ParseStruct(ts) == Ok(StructDecl(name, fields), k)
  {
    hide StructPortsIn, StructPorts;
    var r := ParseStruct(ts);
    if IsIdentFirst(ts) && Starts(LBrace, ts.tail) {
      StructPortsParsed([], ts.tail.tail);
      if r.Ok? { assert r.value.fields[0..] == r.value.fields; }
    }
    forall name, fields, k | Starts(Ident(name), ts) && Starts(LBrace, ts.tail) && StructPortsIn(fields, ts.tail.tail, k)
      ensures r == Ok(StructDecl(name, fields), k)
    {
      StructPortsFirst(fields, ts.tail.tail, k);
      assert [] + fields == fields;
    }
  }

  lemma ClauseParsed(ts: List, source: ImportSource)
    requires ParseSource(ts).Ok? && ParseSource(ts).value == source
    ensures
      var r := ParseImport(ts);
      r.Ok? ==> r.value.Import? && r.value.source == source && ClauseIn(r.value.clause, ParseSource(ts).rest, r.rest)
    ensures
      forall clause, k :: ClauseIn(clause, ParseSource(ts).rest, k) ==> ParseImport(ts) == Ok(Import(source, clause), k)
  {
    hide ImportItemsIn, ImportItems, ParseSource;
    var mid, r := ParseSource(ts).rest, ParseImport(ts);
    if Starts(LBrace, mid) {
      ImportItemsParsed([], mid.tail);
      if r.Ok? { assert r.value.clause.items[0..] == r.value.clause.items; }
    }
    forall clause, k | ClauseIn(clause, mid, k)
      ensures r == Ok(Import(source, clause), k)
    {
      if clause.Items? { assert [] + clause.items == clause.items; }
    }
  }

  lemma ForeignParsed(ts: List)
    ensures
      var r := ParseForeign(ts);
      r.Ok? ==> r.value.Foreign? && DeclIn(r.value, Cons(Ident("foreign"), ts), r.rest)
    ensures
      forall d: Decl, k: List :: d.Foreign? && DeclIn(d, Cons(Ident("foreign"), ts), k) ==> ParseForeign(ts) == Ok(d, k)
  {
    hide ForeignNodesIn, ForeignNodes, OriginIn, ParseForeignHead, CallableIn, TypeIn;
    OriginParsed(ts);
    var r, head := ParseForeign(ts), ParseForeignHead(ts);
    if head.Ok? && Starts(LBrace, head.rest) {
      ForeignNodesParsed([], head.rest.tail);
      NoForeignNodes(head.rest.tail);
      if r.Ok? { assert r.value.nodes[0..] == r.value.nodes; }
    }
    forall d: Decl, k: List | d.Foreign? && DeclIn(d, Cons(Ident("foreign"), ts), k)
      ensures r == Ok(d, k)
    {
      assert [] + d.nodes == d.nodes;
    }
  }

  lemma NoForeignNodes(ts: List)
    ensures Peek(ts) == RBrace ==> ForeignNodes([], ts).Fail?
  {}

  lemma ImportDeclParsed(ts: List)
    ensures
      var r := ParseImport(ts);
      r.Ok? ==> r.value.Import? && DeclIn(r.value, Cons(Ident("import"), ts), r.rest)
    ensures
      forall d: Decl, k: List :: d.Import? && DeclIn(d, Cons(Ident("import"), ts), k) ==> ParseImport(ts) == Ok(d, k)
  {
    hide SourceIn, ParseSource, ClauseIn;
    SourceParsed(ts);
    var source := ParseSource(ts);
    if source.Ok? { ClauseParsed(ts, source.value); }
    hide ParseImport;
    assert source.Fail? ==> ParseImport(ts).Fail? by { NoImport(ts); }
  }

  lemma NoImport(ts: List)
    ensures ParseSource(ts).Fail? ==> ParseImport(ts).Fail?
  {
    hide ParseSource;
  }

  lemma AliasParsed(ts: List)
    ensures
      var r := ParseAlias(ts);
      r.Ok? ==> r.value.TypeAlias? && DeclIn(r.value, Cons(Ident("type"), ts), r.rest)
    ensures
      forall d: Decl, k: List :: d.TypeAlias? && DeclIn(d, Cons(Ident("type"), ts), k) ==> ParseAlias(ts) == Ok(d, k)
  {
    hide TypeIn, ParseType, CallableIn;
    if IsIdentFirst(ts) && Starts(Equal, ts.tail) { TypeParsed(ts.tail.tail); }
  }

  lemma NodeDeclParsed(ts: List)
    requires IsIdentFirst(ts) && ts.head.name in ["extern", "node", "program"]
    ensures ParseDecl(ts).Ok? ==> DeclIn(ParseDecl(ts).value, ts, ParseDecl(ts).rest)
    ensures forall d: Decl, k: List :: (d.Node? || d.Program?) && DeclIn(d, ts, k) ==> ParseDecl(ts) == Ok(d, k)
  {
    hide ParseCallable, CallableIn;
    if ts.head.name == "extern" {
      if Starts(Ident("node"), ts.tail) { CallableParsed(true, ts.tail.tail); }
    } else {
      CallableParsed(false, ts.tail);
    }
  }

  lemma OtherDeclParsed(ts: List)
    requires IsIdentFirst(ts) && ts.head.name in ["type", "struct", "import", "foreign"]
    ensures ParseDecl(ts).Ok? ==> DeclIn(ParseDecl(ts).value, ts, ParseDecl(ts).rest)
    ensures forall d: Decl, k: List :: !d.Node? && !d.Program? && DeclIn(d, ts, k) ==> ParseDecl(ts) == Ok(d, k)
  {
    hide ParseDecl, DeclIn, ParseAlias, ParseStruct, ParseImport, ParseForeign;
    var word, rest := ts.head.name, ts.tail;
    assert ts == Cons(Ident(word), rest);
    DeclWords(ts);
    DeclKind(ts);
    if word == "type" {
      AliasParsed(rest);
    } else if word == "struct" {
      StructParts(ts);
    } else if word == "import" {
      ImportDeclParsed(rest);
    } else {
      ForeignParsed(rest);
    }
  }

  lemma DeclWords(ts: List)
    requires IsIdentFirst(ts)
    ensures ts.head.name == "type" ==> ParseDecl(ts) == ParseAlias(ts.tail)
    ensures ts.head.name == "struct" ==> ParseDecl(ts) == ParseStruct(ts.tail)
    ensures ts.head.name == "import" ==> ParseDecl(ts) == ParseImport(ts.tail)
    ensures ts.head.name == "foreign" ==> ParseDecl(ts) == ParseForeign(ts.tail)
  {
    hide ParseAlias, ParseStruct, ParseImport, ParseForeign;
  }

  lemma StructParts(ts: List)
    requires Starts(Ident("struct"), ts)
    ensures ParseStruct(ts.tail).Ok? ==> DeclIn(ParseStruct(ts.tail).value, ts, ParseStruct(ts.tail).rest)
    ensures forall d: Decl, k: List :: d.StructDecl? && DeclIn(d, ts, k) ==> ParseStruct(ts.tail) == Ok(d, k)
  {
    hide StructPortsIn, ParseStruct;
    StructDeclParsed(ts.tail);
  }

  lemma DeclParsed(ts: List)
    ensures ParseDecl(ts).Ok? ==> DeclIn(ParseDecl(ts).value, ts, ParseDecl(ts).rest)
    ensures forall d, k :: DeclIn(d, ts, k) ==> ParseDecl(ts) == Ok(d, k)
  {
    NoDecl(ts);
    hide ParseDecl, DeclIn;
    if IsIdentFirst(ts) {
      DeclKind(ts);
      if ts.head.name in ["extern", "node", "program"] {
        NodeDeclParsed(ts);
      } else if ts.head.name in ["type", "struct", "import", "foreign"] {
        OtherDeclParsed(ts);
      }
    }
  }

  lemma NoDecl(ts: List)
    ensures ParseDecl(ts).Ok? ==> IsIdentFirst(ts) && BeginsDeclaration(ts.head)
    ensures forall d, k :: DeclIn(d, ts, k) ==> IsIdentFirst(ts) && BeginsDeclaration(ts.head)
  {
    hide ParseAlias, ParseStruct, ParseImport, ParseForeign, ParseCallable;
  }

  lemma DeclKind(ts: List)
    requires IsIdentFirst(ts)
    ensures
      forall d, k :: DeclIn(d, ts, k) ==>
        var word := ts.head.name;
        && (word == "type" <==> d.TypeAlias?) && (word == "struct" <==> d.StructDecl?) && (word == "import" <==> d.Import?)
        && (word == "foreign" <==> d.Foreign?) && (word == "program" <==> d.Program?)
        && (word == "extern" <==> d.Node? && d.callable.isExtern) && (word == "node" <==> d.Node? && !d.callable.isExtern)
  {
    hide CallableIn, TypeIn, StructPortsIn, ClauseIn, SourceIn, OriginIn, ForeignNodesIn;
  }

  lemma DeclsStep(ds: seq<Decl>, ts: List)
    ensures
      DeclsIn(ds, ts)
      <==> if ds == [] then ts == Nil
           else ParseDecl(ts).Ok? && ds[0] == ParseDecl(ts).value && DeclsIn(ds[1..], ParseDecl(ts).rest)
  {
    hide DeclIn, ParseDecl;
    DeclParsed(ts);
  }

  lemma {:induction false} DeclsParsed(acc: seq<Decl>, ts: List)
    ensures
      var r := Decls(acc, ts);
      r.Ok? ==> acc <= r.value && DeclsIn(r.value[|acc|..], ts)
    ensures forall ds :: DeclsIn(ds, ts) ==> Decls(acc, ts) == Ok(acc + ds, Nil)
    decreases ts
  {
    hide DeclsIn, ParseDecl;
    var r, first := Decls(acc, ts), ParseDecl(ts);
    if ts.Cons? && first.Ok? { DeclsParsed(acc + [first.value], first.rest); }
    if r.Ok? {
      DeclsStep(r.value[|acc|..], ts);
      if ts.Cons? { assert r.value[|acc|..][1..] == r.value[|acc| + 1..]; } else { assert r.value[|acc|..] == []; }
    }
    forall ds | DeclsIn(ds, ts)
      ensures r == Ok(acc + ds, Nil)
    {
      DeclsStep(ds, ts);
      if ts == Nil { NothingLeft(ts); }
      if ds != [] { assert acc + ds == acc + [ds[0]] + ds[1..]; } else { assert acc + ds == acc; }
    }
  }

  lemma NothingLeft(ts: List)
    requires ts == Nil
    ensures ParseDecl(ts).Fail?
  {}

  /** The parser accepts the token lists of the grammar, and no others, and returns the one tree they spell. */
  lemma ParsedIffSpelled(m: Module, ts: List)
    ensures ParseModule(ts) == Some(m) <==> DeclsIn(m.declarations, ts)
  {
    hide DeclsIn, Decls;
    DeclsParsed([], ts);
    var r := Decls([], ts);
    if r.Ok? { assert r.value[0..] == r.value; }
    assert [] + m.declarations == m.declarations;
  }

  /** From the text to the tree: a program is read just when its text spells tokens that spell it. */
  lemma SourceReadIff(text: string, m: Module)
    ensures
      Lexer.Lex(text).SomeTokens? && ParseModule(ListOf(Lexer.Lex(text).tokens)) == Some(m)
      <==> exists ts :: LexicalGrammar.Spells(text, ts) && DeclsIn(m.declarations, ListOf(ts))
  {
    hide DeclsIn, ParseModule, LexicalGrammar.Spells, Lexer.Lex, ListOf;
    if Lexer.Lex(text).SomeTokens? {
      var ts := Lexer.Lex(text).tokens;
      LexicalGrammar.LexedIffSpelled(text, ts);
      ParsedIffSpelled(m, ListOf(ts));
    }
    forall ts | LexicalGrammar.Spells(text, ts)
      ensures Lexer.Lex(text) == Lexer.SomeTokens(ts)
    {
      LexicalGrammar.LexedIffSpelled(text, ts);
    }
  }
}
