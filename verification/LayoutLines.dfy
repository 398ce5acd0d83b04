/** Reading the lines of chains and declarations as they are printed. */
module LayoutLines {
  import opened Tokens
  import opened Ast
  import opened WellFormed
  import opened Rendering
  import opened Formatting
  import opened FormatSafety
  import opened Comments
  import opened CommentLayout
  import opened PrintedLines
  import opened PrintedLevels

  /** A line that changes nothing but the level. */
  lemma QuietLine(keen: bool, r: Reader, t: Text, after: Level, rest: Text, u: Token)
    requires Laid(false, t) && Through(r.level, t) == Some(Line(after, None, rest)) && FirstToken(t) == Some(u)
    requires r.comment.None? && r.level.brace >= 1 && (after.brace >= 1 || r.open.None?)
    requires r.level.brace >= 2 || u.Arrow? || u.RBrace? || r.open.None?
    ensures ReadText(keen, r, t) == ReadText(keen, r.(level := after), rest)
  {
    InnerLine(keen, r, t, Line(after, None, rest), u);
  }

  /** The first token of a line that is indented. */
  lemma IndentedFirst(k: Text)
    ensures FirstToken(W(INDENT, k)) == FirstToken(k) && FirstToken(W(INDENT + INDENT, k)) == FirstToken(k)
  {
    NoNewLine(INDENT);
    NoNewLine(INDENT + INDENT);
  }

  lemma IndentedLine(l: Level, line: Text, through: Option<Line>)
    requires line.T? && Through(l, line) == through
    ensures Through(l, W(INDENT, line)) == through && Through(l, W(INDENT + INDENT, line)) == through
    ensures FirstToken(W(INDENT, line)) == Some(line.token) && FirstToken(W(INDENT + INDENT, line)) == Some(line.token)
  {
    Indented(l, 0, line);
    IndentedFirst(line);
    hide Through;
  }

  lemma LineEnds(l: Level, rest: Text)
    ensures Through(l, NewLine(rest)) == Some(Line(l, None, rest))
    ensures Through(l, T(Comma, NewLine(rest))) == Some(Line(l, None, rest))
  {}

  /** The comment behind the code of a line. */
  lemma LineEndThrough(l: Level, trailing: Option<string>, rest: Text)
    requires IsTrailing(trailing)
    ensures Through(l, LineEnd(trailing, rest)) == Some(Line(l, trailing, rest))
  {
    if trailing.Some? {
      var c := trailing.value;
      var gap := "  " + c + "\n";
      assert gap[..2] == "  " && gap[2..|gap| - 1] == c && gap[2] == '#';
    }
  }

  lemma QNameFirst(q: QName, k: Text)
    requires q != []
    ensures FmtQName(q, k).T? && FmtQName(q, k).token.Ident?
  {}

  lemma AtomFirst(e: Endpoint, k: Text)
    requires WfAtom(e)
    ensures FmtEndpoint(e, k).T? && !FmtEndpoint(e, k).token.Arrow? && !FmtEndpoint(e, k).token.RBrace?
  {}

  lemma ArmFirst(arm: MatchArm, k: Text)
    requires WfArm(arm)
    ensures FmtArm(arm, k).T?
  {
    match arm.guard
    case Fallback =>
    case Call(r, args) => QNameFirst(r.base, if r.args == [] then k else T(Less, FmtArgs(r.args, T(Greater, k))));
  }

  // ---- Chains over several lines ----

  lemma {:induction false} ArmLinesRead(keen: bool, r: Reader, arms: seq<MatchArm>, k: Text)
    requires (forall i :: 0 <= i < |arms| ==> WfArm(arms[i])) && Laid(false, k) && r.level.brace >= 2 && r.comment.None?
    ensures ReadText(keen, r, FmtArmLines(arms, k)) == ReadText(keen, r, k)
    decreases arms
  {
    if arms != [] {
      var rest := FmtArmLines(arms[1..], k);
      var line := FmtArm(arms[0], NewLine(rest));
      ArmLinesSafe(false, arms, k);
      ArmLevel(r.level, arms[0], NewLine(rest));
      ArmFirst(arms[0], NewLine(rest));
      LineEnds(r.level, rest);
      hide Laid, Through, FmtArm, ReadText, WfArm, FirstToken;
      IndentedLine(r.level, line, Some(Line(r.level, None, rest)));
      QuietLine(keen, r, W(INDENT + INDENT, line), r.level, rest, line.token);
      ArmLinesRead(keen, r, arms[1..], k);
    }
  }

  lemma {:induction false} FieldLinesRead(keen: bool, r: Reader, fields: seq<Field>, k: Text)
    requires WfFields(fields) && Laid(false, k) && r.level.brace >= 2 && r.comment.None?
    ensures ReadText(keen, r, FmtFieldLines(fields, k)) == ReadText(keen, r, k)
    decreases fields
  {
    if fields != [] {
      var rest := if |fields| == 1 then k else FmtFieldLines(fields[1..], k);
      var after := if |fields| == 1 then NewLine(rest) else T(Comma, NewLine(rest));
      var line := FmtField(fields[0], after);
      FieldLinesSafe(false, fields, k);
      FieldLevel(r.level, fields[0], after);
      LineEnds(r.level, rest);
      hide Laid, Through, ReadText, FmtEndpoint, FirstToken;
      IndentedLine(r.level, line, Some(Line(r.level, None, rest)));
      QuietLine(keen, r, W(INDENT + INDENT, line), r.level, rest, line.token);
      if |fields| > 1 { FieldLinesRead(keen, r, fields[1..], k); }
    }
  }

  lemma BraceThrough(l: Level, k: Text)
    ensures Through(l, W(INDENT, T(RBrace, k))) == Through(TokenLevel(l, RBrace), k)
    ensures FirstToken(W(INDENT, T(RBrace, k))) == Some(RBrace)
  {
    IndentedLine(l, T(RBrace, k), Through(l, T(RBrace, k)));
  }

  lemma BraceLaid(k: Text)
    requires Laid(false, k)
    ensures Laid(false, W(INDENT, T(RBrace, k)))
  {
    FormatSafety.Unfold(false);
    hide Laid, Runs, IsGap;
  }

  /** The last line of a block inside a body. */
  lemma InnerBrace(keen: bool, r: Reader, k: Text, remark: Option<string>, after: Text)
    requires Laid(false, k) && r.level.brace == 2 && r.comment.None?
    requires Through(TokenLevel(r.level, RBrace), k) == Some(Line(TokenLevel(r.level, RBrace), remark, after))
    ensures Laid(false, W(INDENT, T(RBrace, k)))
    ensures
      ReadText(keen, r, W(INDENT, T(RBrace, k)))
      == ReadText(keen, OtherStep(keen, r, remark).(level := TokenLevel(r.level, RBrace)), after)
  {
    BraceThrough(r.level, k);
    BraceLaid(k);
    hide Laid, Through, ReadText, FirstToken, OtherStep;
    BraceLineRead(keen, r, W(INDENT, T(RBrace, k)), TokenLevel(r.level, RBrace), remark, after);
  }

  lemma BraceLineRead(keen: bool, r: Reader, t: Text, level: Level, remark: Option<string>, after: Text)
    requires Laid(false, t) && Through(r.level, t) == Some(Line(level, remark, after)) && FirstToken(t) == Some(RBrace)
    requires r.level.brace == 2 && level.brace == 1 && r.comment.None?
    ensures ReadText(keen, r, t) == ReadText(keen, OtherStep(keen, r, remark).(level := level), after)
  {
    hide Laid, Through, ReadText, FirstToken, OtherStep, ChainStep;
    InnerLine(keen, r, t, Line(level, remark, after), RBrace);
  }

  lemma MatchHead(l: Level, lines: Text)
    ensures
      var t := W(INDENT, T(Arrow, W(" ", T(Ident("match"), W(" ", T(LBrace, NewLine(lines)))))));
      Through(l, t) == Some(Line(TokenLevel(l, LBrace), None, lines)) && FirstToken(t) == Some(Arrow)
  {
    var head := T(Arrow, W(" ", T(Ident("match"), W(" ", T(LBrace, NewLine(lines))))));
    PrintedLevels.Unfold();
    hide Through;
    Indented(l, 0, head);
    IndentedFirst(head);
  }

  lemma NewLineFacts(l: Level, k: Text)
    requires Laid(false, k)
    ensures Laid(false, NewLine(k)) && Through(l, NewLine(k)) == Some(Line(l, None, k))
  {
    FormatSafety.Unfold(false);
    PrintedLevels.Unfold();
  }

  lemma MatchLineRead(keen: bool, r: Reader, arms: seq<MatchArm>, k: Text)
    requires WfArms(arms) && Laid(false, FmtStageLine(Match(arms), k)) && Laid(false, k) && r.level.brace == 1
             && r.comment.None?
    ensures ReadText(keen, r, FmtStageLine(Match(arms), k)) == ReadText(keen, r, k)
  {
    var t := FmtStageLine(Match(arms), k);
    var lines := FmtArmLines(arms, W(INDENT, T(RBrace, NewLine(k))));
    assert t == W(INDENT, T(Arrow, W(" ", T(Ident("match"), W(" ", T(LBrace, NewLine(lines)))))));
    MatchHead(r.level, lines);
    hide FmtStageLine, FmtArmLines, ReadText, Laid, Through, FirstToken, WfArms;
    MatchBlockRead(keen, r, arms, t, lines, k);
  }

  lemma MatchBlockRead(keen: bool, r: Reader, arms: seq<MatchArm>, t: Text, lines: Text, k: Text)
    requires WfArms(arms) && Laid(false, t) && Laid(false, k) && r.level.brace == 1 && r.comment.None?
    requires lines == FmtArmLines(arms, W(INDENT, T(RBrace, NewLine(k))))
    requires Through(r.level, t) == Some(Line(TokenLevel(r.level, LBrace), None, lines)) && FirstToken(t) == Some(Arrow)
    ensures ReadText(keen, r, t) == ReadText(keen, r, k)
  {
    hide Laid, Through, FmtArmLines, ReadText, WfArms, FirstToken;
    var r1 := r.(level := TokenLevel(r.level, LBrace));
    QuietLine(keen, r, t, r1.level, lines, Arrow);
    assert TokenLevel(r1.level, RBrace) == r.level;
    ArmsBlockRead(keen, r1, arms, k);
  }

  lemma ArmsBlockRead(keen: bool, r: Reader, arms: seq<MatchArm>, k: Text)
    requires WfArms(arms) && Laid(false, k) && r.level.brace == 2 && r.comment.None?
    ensures
      ReadText(keen, r, FmtArmLines(arms, W(INDENT, T(RBrace, NewLine(k)))))
      == ReadText(keen, r.(level := TokenLevel(r.level, RBrace)), k)
  {
    EveryArm(arms);
    NewLineFacts(TokenLevel(r.level, RBrace), k);
    hide Laid, Through, FmtArmLines, ReadText, WfArms, WfArm, TokenLevel;
    InnerBrace(keen, r, NewLine(k), None, k);
    ArmLinesRead(keen, r, arms, W(INDENT, T(RBrace, NewLine(k))));
  }

  lemma StageLineRead(keen: bool, r: Reader, s: Stage, k: Text)
    requires WfStage(s) && Laid(false, k) && r.level.brace == 1 && r.comment.None?
    ensures ReadText(keen, r, FmtStageLine(s, k)) == ReadText(keen, r, k)
  {
    StageLineSafe(false, s, k);
    if s.Match? {
      hide Laid, ReadText, FmtStageLine, WfArms;
      MatchLineRead(keen, r, s.arms, k);
    } else {
      PrintedLevels.Unfold();
      var head := T(Arrow, W(" ", FmtStage(s, NewLine(k))));
      Indented(r.level, 0, head);
      IndentedFirst(head);
      StageLevel(r.level, s, NewLine(k));
      hide Laid, Through, FmtStage, ReadText, WfStage;
      QuietLine(keen, r, W(INDENT, head), r.level, k, Arrow);
    }
  }

  lemma {:induction false} StageLinesRead(keen: bool, r: Reader, stages: seq<Stage>, k: Text)
    requires WfStages(stages) && Laid(false, k) && r.level.brace == 1 && r.comment.None?
    ensures ReadText(keen, r, FmtStageLines(stages, k)) == ReadText(keen, r, k)
    decreases stages
  {
    hide Laid, FmtStageLine, ReadText, WfStage;
    if stages != [] {
      StageLinesSafe(false, stages[1..], k);
      StageLineRead(keen, r, stages[0], FmtStageLines(stages[1..], k));
      StageLinesRead(keen, r, stages[1..], k);
    }
  }

  lemma LongStructRead(keen: bool, r: Reader, e: Endpoint, k: Text, remark: Option<string>, after: Text)
    requires e.Struct? && WfAtom(e) && Laid(false, k) && Parted(k) && r.level.brace == 1 && r.comment.None?
    requires Through(r.level, k) == Some(Line(r.level, remark, after))
    ensures
      ReadText(keen, r, FmtLongStruct(e, k)) == ReadText(keen, OtherStep(keen, ChainStep(keen, r, None), remark), after)
  {
    LongStructSafe(false, e, k);
    var last := W(INDENT, T(RBrace, k));
    var lines := FmtFieldLines(e.fields, last);
    StructLineThrough(r.level, e.typeName, lines);
    hide Laid, Through, FmtFieldLines, ReadText, WfFields, FirstToken;
    StructBlockRead(keen, r, e, W(INDENT, T(Ident(e.typeName), W(" ", T(LBrace, NewLine(lines))))), lines, k, remark, after);
  }

  lemma StructBlockRead(keen: bool, r: Reader, e: Endpoint, t: Text, lines: Text, k: Text, remark: Option<string>,
      after: Text)
    requires e.Struct? && WfFields(e.fields) && Laid(false, t) && Laid(false, k) && r.level.brace == 1 && r.comment.None?
    requires lines == FmtFieldLines(e.fields, W(INDENT, T(RBrace, k)))
    requires Through(r.level, t) == Some(Line(TokenLevel(r.level, LBrace), None, lines))
             && FirstToken(t) == Some(Ident(e.typeName))
    requires Through(r.level, k) == Some(Line(r.level, remark, after))
    ensures ReadText(keen, r, t) == ReadText(keen, OtherStep(keen, ChainStep(keen, r, None), remark), after)
  {
    hide Laid, Through, FmtFieldLines, ReadText, WfFields, FirstToken, ChainStep, OtherStep;
    var inner := TokenLevel(r.level, LBrace);
    InnerLine(keen, r, t, Line(inner, None, lines), Ident(e.typeName));
    var r1 := ChainStep(keen, r, None).(level := inner);
    assert TokenLevel(inner, RBrace) == r.level;
    ChainKeeps(keen, r, None);
    InnerBrace(keen, r1, k, remark, after);
    FieldLinesRead(keen, r1, e.fields, W(INDENT, T(RBrace, k)));
    OtherLevel(keen, ChainStep(keen, r, None), remark, inner, r.level);
  }

  /** A chain changes neither the level nor what is open. */
  lemma ChainKeeps(keen: bool, r: Reader, remark: Option<string>)
    ensures
      var s := ChainStep(keen, r, remark);
      && s.level == r.level && s.open == r.open && s.comment == r.comment
      && s.next == r.next
    ensures
      var s := OtherStep(keen, r, remark);
      && s.level == r.level && s.open == r.open && s.comment == r.comment
      && s.next == r.next
  {}

  lemma OtherLevel(keen: bool, r: Reader, remark: Option<string>, inner: Level, l: Level)
    requires r.level == l
    ensures OtherStep(keen, r.(level := inner), remark).(level := l) == OtherStep(keen, r, remark)
  {}

  lemma StructLineThrough(l: Level, n: string, lines: Text)
    ensures
      var t := W(INDENT, T(Ident(n), W(" ", T(LBrace, NewLine(lines)))));
      Through(l, t) == Some(Line(TokenLevel(l, LBrace), None, lines)) && FirstToken(t) == Some(Ident(n))
  {
    var head := T(Ident(n), W(" ", T(LBrace, NewLine(lines))));
    PrintedLevels.Unfold();
    hide Through;
    Indented(l, 0, head);
    IndentedFirst(head);
  }

  /** The comment of a long struct literal stands on its last line, where the program does not look for it. */
  function MultilineStep(keen: bool, r: Reader, c: Chain, trailing: Option<string>): Reader
  {
    if IsLongStruct(c.source) then OtherStep(keen, ChainStep(keen, r, None), trailing) else ChainStep(keen, r, trailing)
  }

  /** A chain over several lines is one chain. */
  lemma MultilineRead(keen: bool, r: Reader, c: Chain, trailing: Option<string>, k: Text)
    requires WfChain(c) && IsTrailing(trailing) && Laid(false, k) && r.level.brace == 1 && r.comment.None?
    ensures ReadText(keen, r, FmtMultilineChain(c, trailing, k)) == ReadText(keen, MultilineStep(keen, r, c, trailing), k)
  {
    if IsLongStruct(c.source) {
      LongChainRead(keen, r, c, trailing, k);
    } else {
      MultilineChainSafe(false, c, trailing, k);
      var lines := FmtStageLines(c.stages, k);
      StageLinesSafe(false, c.stages, k);
      var end := LineEnd(trailing, lines);
      var line := FmtEndpoint(c.source, end);
      AtomFirst(c.source, end);
      EndpointLevel(r.level, c.source, end);
      LineEndThrough(r.level, trailing, lines);
      hide Laid, Through, FmtStageLines, FmtEndpoint, ReadText, WfStages, WfAtom, Width, FirstToken, LineEnd;
      IndentedLine(r.level, line, Some(Line(r.level, trailing, lines)));
      InnerLine(keen, r, W(INDENT, line), Line(r.level, trailing, lines), line.token);
      ChainKeeps(keen, r, trailing);
      StageLinesRead(keen, ChainStep(keen, r, trailing), c.stages, k);
    }
  }

  lemma LongChainRead(keen: bool, r: Reader, c: Chain, trailing: Option<string>, k: Text)
    requires IsLongStruct(c.source)
    requires WfChain(c) && IsTrailing(trailing) && Laid(false, k) && r.level.brace == 1 && r.comment.None?
    ensures
      ReadText(keen, r, FmtMultilineChain(c, trailing, k))
      == ReadText(keen, OtherStep(keen, ChainStep(keen, r, None), trailing), k)
  {
    var n := InlineCount(c.stages);
    var lines := FmtStageLines(c.stages[n..], k);
    WfStagesSplit(c.stages, n);
    StageLinesSafe(false, c.stages[n..], k);
    var end := LineEnd(trailing, lines);
    LineEndSafe(false, trailing, lines);
    LineEndThrough(r.level, trailing, lines);
    StagesSafe(false, c.stages[..n], end);
    StagesLevel(r.level, c.stages[..n], end);
    StagesBlank(c.stages[..n], end);
    hide Laid, Through, FmtStages, FmtStageLines, ReadText, WfStages, WfAtom, Width, FmtLongStruct, LineEnd;
    LongStructRead(keen, r, c.source, FmtStages(c.stages[..n], end), trailing, lines);
    var r1 := ChainStep(keen, r, None);
    ChainKeeps(keen, r, None);
    ChainKeeps(keen, r1, trailing);
    StageLinesRead(keen, OtherStep(keen, r1, trailing), c.stages[n..], k);
  }

  // ---- Chains of one line each ----

  function ChainSteps(keen: bool, r: Reader, rows: seq<Row>): Reader
    decreases rows
  {
    if rows == [] then r else ChainSteps(keen, ChainStep(keen, r, rows[0].trailing), rows[1..])
  }

  lemma PartFirst(c: Chain, group: seq<Row>, k: Text)
    requires WfChain(c)
    ensures var t := FmtAligned(c, 0, group, k); t.T? && !t.token.Arrow? && !t.token.RBrace?
  {
    var after := if 0 == |c.stages| then k
      else
        var width := Width(FmtPart(c, 0, End));
        var pad := if ColumnWidth(group, 0) > width then ColumnWidth(group, 0) - width else 0;
        W(Spaces(pad) + " ", T(Arrow, W(" ", FmtAligned(c, 1, group, k))));
    AtomFirst(c.source, after);
  }

  lemma {:induction false} GroupRead(keen: bool, r: Reader, rows: seq<Row>, group: seq<Row>, k: Text)
    requires WfRows(rows) && Laid(false, k) && r.level.brace == 1 && r.comment.None?
    ensures ReadText(keen, r, FmtGroup(rows, group, k)) == ReadText(keen, ChainSteps(keen, r, rows), k)
    decreases rows
  {
    if rows != [] {
      var row, rest := rows[0], FmtGroup(rows[1..], group, k);
      assert WfRow(row);
      GroupSafe(false, rows, group, k);
      GroupSafe(false, rows[1..], group, k);
      var end := LineEnd(row.trailing, rest);
      var line := FmtAligned(row.chain, 0, group, end);
      AlignedLevel(r.level, row.chain, 0, group, end);
      PartFirst(row.chain, group, end);
      LineEndThrough(r.level, row.trailing, rest);
      hide Laid, Through, FmtAligned, ReadText, WfChain, FirstToken, LineEnd;
      IndentedLine(r.level, line, Some(Line(r.level, row.trailing, rest)));
      InnerLine(keen, r, W(INDENT, line), Line(r.level, row.trailing, rest), line.token);
      ChainKeeps(keen, r, row.trailing);
      GroupRead(keen, ChainStep(keen, r, row.trailing), rows[1..], group, k);
    }
  }

  // ---- Declarations without chains ----

  /** The reader behind a declaration that is no callable. */
  function AfterPlain(r: Reader, d: Decl): Reader { Named(r).(level := DeclLevel(r.level, d)) }

  predicate IsOutside(r: Reader) { r.open.None? && r.level.brace == 0 && r.comment.None? }

  lemma AliasRead(keen: bool, r: Reader, n: string, ty: TypeText, k: Text)
    requires IsOutside(r) && Laid(false, FmtAlias(n, ty, k))
    ensures ReadText(keen, r, FmtAlias(n, ty, k)) == ReadText(keen, AfterPlain(r, TypeAlias(n, ty)), k)
  {
    PrintedLevels.Unfold();
    TypeTextLevel(r.level, ty, NewLine(k));
    hide Laid, Through, FmtType, ReadText;
    var rest := W(" ", T(Ident(n), W(" ", T(Equal, W(" ", FmtType(ty, NewLine(k)))))));
    PlainLine(keen, r, "type", rest, TypeLevel(r.level, ty), k);
  }

  lemma {:induction false} StructLinesRead(keen: bool, r: Reader, ps: seq<Port>, k: Text)
    requires r.open.None? && r.comment.None? && r.level.brace >= 1 && WfPorts(ps) && Laid(false, FmtStructLines(ps, k))
    ensures ReadText(keen, r, FmtStructLines(ps, k)) == ReadText(keen, r.(level := PortsLevel(r.level, ps)), k)
    ensures Laid(false, k)
    decreases ps
  {
    if ps != [] {
      var rest := FmtStructLines(ps[1..], k);
      var line := FmtPort(ps[0], T(Comma, NewLine(rest)));
      PrintedLevels.Unfold();
      PortTextLevel(r.level, ps[0], T(Comma, NewLine(rest)));
      Indented(r.level, 0, line);
      IndentedFirst(line);
      assert WfPort(ps[0]);
      TypeBraces(true, 0, r.level, ps[0].ty);
      var after := TypeLevel(r.level, ps[0].ty);
      RestLaid(r.level, W(INDENT, line));
      hide Laid, Through, FmtType, ReadText, WfPort;
      QuietLine(keen, r, W(INDENT, line), after, rest, Ident(ps[0].name));
      StructLinesRead(keen, r.(level := after), ps[1..], k);
    }
  }

  lemma RestLaid(l: Level, t: Text)
    requires Laid(false, t) && Through(l, t).Some?
    ensures Laid(false, Through(l, t).value.rest)
  {
    FirstLine(l, t);
  }

  /** The line that closes a declaration. */
  lemma BraceRead(keen: bool, r: Reader, k: Text)
    requires r.open.None? && r.comment.None? && r.level.brace >= 1 && Laid(false, T(RBrace, NewLine(k)))
    ensures ReadText(keen, r, T(RBrace, NewLine(k))) == ReadText(keen, r.(level := TokenLevel(r.level, RBrace)), k)
  {
    PrintedLevels.Unfold();
    hide Laid, Through, ReadText;
    QuietLine(keen, r, T(RBrace, NewLine(k)), TokenLevel(r.level, RBrace), k, RBrace);
  }

  /** A declaration that opens a brace at the end of its first line and closes it on its last. */
  lemma BlockRead(keen: bool, r: Reader, word: string, rest: Text, lines: Text, k: Text, l: Level)
    requires IsOutside(r) && IsDeclWord(word) && !IsCallableWord(word) && rest.W? && rest.gap == " " && l.brace == 0
    requires Laid(false, T(Ident(word), rest)) && Laid(false, T(RBrace, NewLine(k)))
    requires Through(r.level, T(Ident(word), rest)) == Some(Line(TokenLevel(r.level, LBrace), None, lines))
    requires
      var r1 := Named(r).(level := TokenLevel(r.level, LBrace));
      ReadText(keen, r1, lines) == ReadText(keen, r1.(level := Add(l, 1, 0, 0)), T(RBrace, NewLine(k)))
    ensures ReadText(keen, r, T(Ident(word), rest)) == ReadText(keen, Named(r).(level := l), k)
  {
    hide Laid, Through, ReadText;
    var inner := TokenLevel(r.level, LBrace);
    PlainLine(keen, r, word, rest, inner, lines);
    BraceRead(keen, Named(r).(level := Add(l, 1, 0, 0)), k);
    assert TokenLevel(Add(l, 1, 0, 0), RBrace) == l;
  }

  lemma StructHead(l: Level, n: string, lines: Text)
    ensures
      Through(l, T(Ident("struct"), W(" ", T(Ident(n), W(" ", T(LBrace, NewLine(lines)))))))
        == Some(Line(TokenLevel(l, LBrace), None, lines))
  {
    PrintedLevels.Unfold();
    hide Through;
  }

  lemma StructRead(keen: bool, r: Reader, n: string, fields: seq<Port>, k: Text)
    requires IsOutside(r) && WfPorts(fields) && Laid(false, FmtStruct(n, fields, k))
    ensures ReadText(keen, r, FmtStruct(n, fields, k)) == ReadText(keen, AfterPlain(r, StructDecl(n, fields)), k)
  {
    var last := T(RBrace, NewLine(k));
    var lines := FmtStructLines(fields, last);
    var rest := W(" ", T(Ident(n), W(" ", T(LBrace, NewLine(lines)))));
    var inner := TokenLevel(r.level, LBrace);
    StructHead(r.level, n, lines);
    hide Laid, Through, FmtStructLines, ReadText, WfPorts, PortsLevel;
    RestLaid(r.level, FmtStruct(n, fields, k));
    StructLinesRead(keen, Named(r).(level := inner), fields, last);
    PortsAdd(r.level, fields, 1, 0, 0);
    PortsBraces(r.level, fields);
    assert inner == Add(r.level, 1, 0, 0);
    BlockRead(keen, r, "struct", rest, lines, k, PortsLevel(r.level, fields));
  }

  lemma {:induction false} ImportLinesRead(keen: bool, r: Reader, items: seq<ImportItem>, k: Text)
    requires r.open.None? && r.comment.None? && r.level.brace >= 1 && Laid(false, FmtImportLines(items, k))
    ensures ReadText(keen, r, FmtImportLines(items, k)) == ReadText(keen, r, k)
    ensures Laid(false, k)
    decreases items
  {
    if items != [] {
      var rest := FmtImportLines(items[1..], k);
      var line := FmtItem(items[0], T(Comma, NewLine(rest)));
      PrintedLevels.Unfold();
      ItemLevel(r.level, items[0], T(Comma, NewLine(rest)));
      Indented(r.level, 0, line);
      IndentedFirst(line);
      RestLaid(r.level, W(INDENT, line));
      hide Laid, Through, ReadText;
      QuietLine(keen, r, W(INDENT, line), r.level, rest, Ident(items[0].name));
      ImportLinesRead(keen, r, items[1..], k);
    }
  }

  lemma ImportRead(keen: bool, r: Reader, source: ImportSource, clause: ImportClause, k: Text)
    requires IsOutside(r) && Laid(false, FmtImport(source, clause, k))
    ensures ReadText(keen, r, FmtImport(source, clause, k)) == ReadText(keen, AfterPlain(r, Import(source, clause)), k)
  {
    PrintedLevels.Unfold();
    hide FitsLine, FmtImportLines, FmtImportItems, FmtSource;
    match clause
    case As(alias) =>
      var last := T(Ident("as"), W(" ", T(Ident(alias), NewLine(k))));
      SourceLevel(r.level, source, W(" ", last));
      hide Laid, Through, ReadText;
      PlainLine(keen, r, "import", W(" ", FmtSource(source, W(" ", last))), r.level, k);
    case Items(items) =>
      var inner := TokenLevel(r.level, LBrace);
      if FitsLine(source, items) {
        var last := W(" ", T(RBrace, NewLine(k)));
        var list := T(LBrace, W(" ", FmtImportItems(items, last)));
        SourceLevel(r.level, source, W(" ", list));
        ImportItemsLevel(inner, items, last);
        hide Laid, Through, ReadText;
        PlainLine(keen, r, "import", W(" ", FmtSource(source, W(" ", list))), r.level, k);
      } else {
        var lines := FmtImportLines(items, T(RBrace, NewLine(k)));
        var list := T(LBrace, NewLine(lines));
        SourceLevel(r.level, source, W(" ", list));
        ImportLongRead(keen, r, source, items, k);
      }
  }

  lemma ImportLongRead(keen: bool, r: Reader, source: ImportSource, items: seq<ImportItem>, k: Text)
    requires
      var lines := FmtImportLines(items, T(RBrace, NewLine(k)));
      Laid(false, FmtImportHead(source, T(LBrace, NewLine(lines))))
    requires IsOutside(r)
    ensures
      var lines := FmtImportLines(items, T(RBrace, NewLine(k)));
      ReadText(keen, r, FmtImportHead(source, T(LBrace, NewLine(lines))))
      == ReadText(keen, AfterPlain(r, Import(source, Items(items))), k)
  {
    var inner := TokenLevel(r.level, LBrace);
    var last := T(RBrace, NewLine(k));
    var lines := FmtImportLines(items, last);
    var list := T(LBrace, NewLine(lines));
    ImportHeadLevel(r.level, source, list);
    assert Through(r.level, list) == Some(Line(inner, None, lines)) by { PrintedLevels.Unfold(); }
    hide Laid, Through, FmtImportLines, FmtSource, ReadText;
    RestLaid(r.level, FmtImportHead(source, list));
    ImportLinesRead(keen, Named(r).(level := inner), items, last);
    assert inner == Add(r.level, 1, 0, 0);
    BlockRead(keen, r, "import", W(" ", FmtSource(source, W(" ", list))), lines, k, r.level);
  }

  lemma {:induction false} NodesAdd(l: Level, ns: seq<ForeignNode>, a: int, b: int, c: int)
    ensures NodesLevel(Add(l, a, b, c), ns) == Add(NodesLevel(l, ns), a, b, c)
    decreases ns
  {
    if ns != [] {
      PortsAdd(l, ns[0].inputs, a, b, c);
      PortsAdd(PortsLevel(l, ns[0].inputs), ns[0].outputs, a, b, c);
      NodesAdd(PortsLevel(PortsLevel(l, ns[0].inputs), ns[0].outputs), ns[1..], a, b, c);
    }
  }

  lemma {:induction false} ForeignLinesRead(keen: bool, r: Reader, ns: seq<ForeignNode>, k: Text)
    requires r.open.None? && r.comment.None? && r.level.brace >= 1 && Laid(false, FmtForeignLines(ns, k))
    requires forall i :: 0 <= i < |ns| ==> WfForeignNode(ns[i])
    ensures ReadText(keen, r, FmtForeignLines(ns, k)) == ReadText(keen, r.(level := NodesLevel(r.level, ns)), k)
    ensures Laid(false, k) && NodesLevel(r.level, ns).brace == r.level.brace
    decreases ns
  {
    if ns != [] {
      var rest := FmtForeignLines(ns[1..], k);
      var line := FmtForeignNode(ns[0], NewLine(rest));
      PrintedLevels.Unfold();
      ForeignNodeLevel(r.level, ns[0], NewLine(rest));
      Indented(r.level, 0, line);
      IndentedFirst(line);
      assert WfForeignNode(ns[0]);
      PortsBraces(r.level, ns[0].inputs);
      PortsBraces(PortsLevel(r.level, ns[0].inputs), ns[0].outputs);
      var after := PortsLevel(PortsLevel(r.level, ns[0].inputs), ns[0].outputs);
      hide FmtInputs, FmtPortOrList, FmtQName, PortsLevel, WfForeignNode;
      RestLaid(r.level, W(INDENT, line));
      hide Laid, Through, ReadText;
      QuietLine(keen, r, W(INDENT, line), after, rest, line.token);
      ForeignLinesRead(keen, r.(level := after), ns[1..], k);
    }
  }

  lemma ForeignThrough(l: Level, language: ForeignTarget, origin: ForeignSource, lines: Text)
    ensures
      Through(l, T(Ident("foreign"), W(" ", FmtForeignHead(language, origin, W(" ", T(LBrace, NewLine(lines)))))))
      == Some(Line(TokenLevel(l, LBrace), None, lines))
  {
    PrintedLevels.Unfold();
    hide Through, FmtForeignHead;
    ForeignHeadLevel(l, language, origin, W(" ", T(LBrace, NewLine(lines))));
  }

  lemma ForeignRead(keen: bool, r: Reader, language: ForeignTarget, origin: ForeignSource, ns: seq<ForeignNode>, k: Text)
    requires IsOutside(r) && Laid(false, FmtForeign(language, origin, ns, k))
    requires forall i :: 0 <= i < |ns| ==> WfForeignNode(ns[i])
    ensures
      ReadText(keen, r, FmtForeign(language, origin, ns, k))
      == ReadText(keen, AfterPlain(r, Foreign(language, origin, ns)), k)
  {
    var inner := TokenLevel(r.level, LBrace);
    var last := T(RBrace, NewLine(k));
    var lines := FmtForeignLines(ns, last);
    var body := W(" ", T(LBrace, NewLine(lines)));
    var rest := W(" ", FmtForeignHead(language, origin, body));
    ForeignThrough(r.level, language, origin, lines);
    hide Laid, Through, FmtForeignLines, FmtForeignHead, ReadText, NodesLevel, WfForeignNode;
    RestLaid(r.level, T(Ident("foreign"), rest));
    ForeignLinesRead(keen, Named(r).(level := inner), ns, last);
    NodesAdd(r.level, ns, 1, 0, 0);
    assert inner == Add(r.level, 1, 0, 0);
    assert NodesLevel(inner, ns) == Add(NodesLevel(r.level, ns), 1, 0, 0);
    BlockRead(keen, r, "foreign", rest, lines, k, NodesLevel(r.level, ns));
  }
}
