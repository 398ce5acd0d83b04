/** Which comments and blank lines a printed module is read back with. */
module LayoutRead {
  import opened Tokens
  import opened Ast
  import opened WellFormed
  import opened Rendering
  import opened Formatting
  import opened FormatSafety
  import opened FormatAppend
  import opened FormatSource
  import opened Comments
  import opened CommentLayout
  import opened KeptComments
  import opened PrintedLines
  import opened PrintedLevels
  import opened LayoutLines

  // ---- Text that is read line by line ----

  /** Reading `t` in front of any text leads from `r` to `s`. */
  ghost predicate Reads(keen: bool, r: Reader, t: Text, s: Reader)
  {
    forall u :: Laid(false, u) ==> ReadText(keen, r, Append(t, u)) == ReadText(keen, s, u)
  }

  lemma {:induction false} AppendAssociative(t: Text, u: Text, v: Text)
    ensures Append(Append(t, u), v) == Append(t, Append(u, v))
  {
    match t
    case End =>
    case T(token, rest) => AppendAssociative(rest, u, v);
    case W(blank, rest) => AppendAssociative(rest, u, v);
  }

  lemma ReadsOn(keen: bool, q: Reader, t: Text, r: Reader, u: Text, s: Reader)
    requires Reads(keen, q, t, r) && Reads(keen, r, u, s) && Whole(false, u)
    ensures Reads(keen, q, Append(t, u), s)
  {
    forall v | Laid(false, v) ensures ReadText(keen, q, Append(Append(t, u), v)) == ReadText(keen, s, v) {
      AppendAssociative(t, u, v);
      AppendSafe(false, u, v);
    }
  }

  lemma ReadsNothing(keen: bool, r: Reader)
    ensures Reads(keen, r, End, r)
  {
  }

  lemma ReadsAll(keen: bool, r: Reader, t: Text, s: Reader)
    requires Reads(keen, r, t, s)
    ensures ReadText(keen, r, t) == s
  {
    AppendEnd(t);
    assert Laid(false, End);
    assert ReadText(keen, s, End) == s;
  }

  /** In a callable a reader has seen the blank line that a text ends with, unless it is in a comment. */
  lemma {:induction false} EmptyLineSeen(keen: bool, r: Reader, s: string)
    requires EndsWithBlankLine(s) && ReadLines(keen, r, s).open.Some? && ReadLines(keen, r, s).comment.None?
    ensures ReadLines(keen, r, s).blank
    decreases |s|
  {
    var n := LineLength(s);
    LineLengthIs(s);
    assert s[|s| - 2] == '\n' && s[|s| - 1] == '\n';
    assert n <= |s| - 2;
    var rest := AfterLine(s);
    assert rest == s[n + 1..];
    var r1 := Step(keen, r, s[..n]);
    hide Step;
    if |rest| == 1 {
      assert rest == "\n" && AfterLine(rest) == [] && rest[..0] == [];
      assert ReadLines(keen, r1, rest) == Step(keen, r1, []);
      EmptyStep(keen, r1);
    } else {
      EmptyLineSeen(keen, r1, rest);
    }
  }

  lemma EmptyStep(keen: bool, r: Reader)
    ensures r.comment.Some? ==> Step(keen, r, "").comment.Some?
    ensures r.comment.None? ==> Step(keen, r, "") == if r.open.Some? then r.(blank := true) else r
  {
    EmptySplit();
    assert Trim("") == "" && TrimStart("") == "";
  }

  lemma {:induction false} LineLengthIs(s: string)
    ensures forall i :: 0 <= i < LineLength(s) ==> s[i] != '\n'
  {
    if s != [] && s[0] != '\n' {
      LineLengthIs(s[1..]);
      assert forall i :: 1 <= i < |s| ==> s[i] == s[1..][i - 1];
    }
  }

  lemma NotBlankYet(keen: bool, r: Reader, t: Text, s: Reader)
    requires Reads(keen, r, t, s) && s.open.Some? && !s.blank && s.comment.None?
    ensures BlankLine(t) == Append(t, NewLine(End))
  {
    ReadsAll(keen, r, t, s);
    if EndsWithBlankLine(Render(t)) { EmptyLineSeen(keen, r, Render(t)); }
  }

  lemma BlankLineReads(keen: bool, r: Reader, t: Text, s: Reader)
    requires Reads(keen, r, t, s) && s.comment.None?
    ensures Reads(keen, r, Append(t, NewLine(End)), if s.open.Some? then s.(blank := true) else s)
  {
    var s1 := if s.open.Some? then s.(blank := true) else s;
    forall u | Laid(false, u) ensures ReadText(keen, s, Append(NewLine(End), u)) == ReadText(keen, s1, u) {
      EmptyLine(keen, s, u);
    }
    NewLineWhole(false);
    ReadsOn(keen, r, t, s, NewLine(End), s1);
  }

  /** Comments on lines of their own wait for what comes next. */
  lemma RemarksReads(keen: bool, q: Reader, acc: Text, r: Reader, indent: string, cs: seq<string>)
    requires Reads(keen, q, acc, r) && r.comment.None? && AllSpaces(indent) && AreComments(cs) && RemarksSkip(indent, cs)
    ensures Reads(keen, q, Append(acc, Remarks(indent, cs)), Kept(r, Again(false, indent, cs)))
  {
    var s := Kept(r, Again(false, indent, cs));
    var t := Remarks(indent, cs);
    hide ReadLines, Again, Behind, CommentLines, Kept;
    forall u | Laid(false, u) ensures ReadText(keen, r, Append(t, u)) == ReadText(keen, s, u) {
      RemarksRead(keen, r, indent, cs, Render(u));
      if cs == [] {
        NoLines(indent);
        assert "" + Render(u) == Render(u);
        assert Append(t, u) == u;
      } else {
        assert Append(t, u) == W(CommentLines(indent, cs), u);
      }
    }
    RemarksWhole(false, indent, cs);
    ReadsOn(keen, q, acc, r, t, s);
  }

  // ---- Bodies ----

  predicate ChainsKept(comments: seq<ChainComments>) { forall i :: 0 <= i < |comments| ==> IsChainKept(comments[i]) }

  /** The reader in front of chain `i`, behind its comments. */
  function Ready(s: Reader, i: nat, c: ChainComments): Reader
  {
    s.(blank := c.blank && i > 0, body := s.body + Again(false, INDENT, c.leading))
  }

  /** The reader behind the first `n` chains. */
  function Marks(keen: bool, r: Reader, chains: seq<Chain>, comments: seq<ChainComments>, n: nat): Reader
    requires n <= |chains|
  {
    if n == 0 then r
    else
      var c := ChainAt(comments, n - 1);
      MultilineStep(keen, Ready(Marks(keen, r, chains, comments, n - 1), n - 1, c), chains[n - 1], c.trailing)
  }

  /** The body of a callable, and whether it is noticed. */
  predicate IsBody(r: Reader) { r.open.Some? && r.level.brace == 1 && r.comment.None? }

  predicate Sees(keen: bool, l: Level) { keen || IsFlat(l) }

  lemma {:induction false} MarksKeep(keen: bool, r: Reader, chains: seq<Chain>, comments: seq<ChainComments>, n: nat)
    requires IsBody(r) && !r.blank && Sees(keen, r.level) && n <= |chains|
    ensures
      var s := Marks(keen, r, chains, comments, n);
      s.open == r.open && s.level == r.level && s.next == r.next && !s.blank && s.comment.None? && s.top == r.top
  {
    hide Again;
    if n > 0 { MarksKeep(keen, r, chains, comments, n - 1); }
  }

  /** A chain without comments before it is read as it comes. */
  lemma UnbrokenReady(s: Reader, i: nat, c: ChainComments)
    requires !Breaks(c) && !s.blank
    ensures Ready(s, i, c) == s
  {
    assert s.body + [] == s.body;
  }

  lemma ChainMark(keen: bool, s: Reader, chain: Chain, trailing: Option<string>)
    requires !IsMultiline(chain)
    ensures MultilineStep(keen, s, chain, trailing) == ChainStep(keen, s, trailing)
  {}

  /** The rows of a group that starts with chain `j` and ends before the next comment. */
  predicate RowsFrom(rows: seq<Row>, chains: seq<Chain>, comments: seq<ChainComments>, j: nat)
    decreases |rows|
  {
    rows == [] ||
    ( && j < |chains| && rows[0] == Row(chains[j], ChainAt(comments, j).trailing) && !IsMultiline(chains[j])
      && (|rows| > 1 ==> !Breaks(ChainAt(comments, j + 1)))
      && RowsFrom(rows[1..], chains, comments, j + 1))
  }

  lemma {:induction false} RowsSnoc(rows: seq<Row>, chains: seq<Chain>, comments: seq<ChainComments>, j: nat)
    requires RowsFrom(rows, chains, comments, j) && j + |rows| < |chains| && !IsMultiline(chains[j + |rows|])
    requires rows != [] ==> !Breaks(ChainAt(comments, j + |rows|))
    ensures RowsFrom(rows + [Row(chains[j + |rows|], ChainAt(comments, j + |rows|).trailing)], chains, comments, j)
    decreases |rows|
  {
    hide IsMultiline, Breaks;
    var row := Row(chains[j + |rows|], ChainAt(comments, j + |rows|).trailing);
    if rows == [] {
      assert [] + [row] == [row] && [row][1..] == [];
    } else {
      RowsSnoc(rows[1..], chains, comments, j + 1);
      assert (rows + [row])[1..] == rows[1..] + [row];
    }
  }

  lemma {:induction false} StepsInGroup(keen: bool, r: Reader, chains: seq<Chain>, comments: seq<ChainComments>,
      j: nat, rows: seq<Row>)
    requires IsBody(r) && !r.blank && Sees(keen, r.level) && rows != [] && RowsFrom(rows, chains, comments, j)
    requires j + |rows| <= |chains|
    ensures
      ChainSteps(keen, Ready(Marks(keen, r, chains, comments, j), j, ChainAt(comments, j)), rows)
      == Marks(keen, r, chains, comments, j + |rows|)
    decreases |rows|
  {
    hide IsMultiline, Breaks, ChainStep, Again;
    var here := Ready(Marks(keen, r, chains, comments, j), j, ChainAt(comments, j));
    var s := Marks(keen, r, chains, comments, j + 1);
    assert rows[0] == Row(chains[j], ChainAt(comments, j).trailing) && !IsMultiline(chains[j]);
    ChainMark(keen, here, chains[j], rows[0].trailing);
    assert ChainSteps(keen, here, rows) == ChainSteps(keen, s, rows[1..]);
    if |rows| > 1 {
      MarksKeep(keen, r, chains, comments, j + 1);
      UnbrokenReady(s, j + 1, ChainAt(comments, j + 1));
      StepsInGroup(keen, r, chains, comments, j + 1, rows[1..]);
    } else {
      assert rows[1..] == [];
    }
  }

  lemma GroupReads(keen: bool, r: Reader, group: seq<Row>)
    requires WfRows(group) && r.level.brace == 1 && r.comment.None?
    ensures Reads(keen, r, FmtGroup(group, group, End), ChainSteps(keen, r, group))
  {
    hide FmtGroup, WfRows, ChainSteps;
    var t := FmtGroup(group, group, End);
    forall u | Laid(false, u) ensures ReadText(keen, r, Append(t, u)) == ReadText(keen, ChainSteps(keen, r, group), u) {
      GroupAppend(group, group, End, u);
      assert Append(End, u) == u;
      GroupRead(keen, r, group, group, u);
    }
  }

  lemma FlushReads(keen: bool, q: Reader, acc: Text, r: Reader, group: seq<Row>)
    requires Reads(keen, q, acc, r) && WfRows(group) && r.level.brace == 1 && r.comment.None?
    ensures Reads(keen, q, Flush(acc, group), ChainSteps(keen, r, group))
  {
    GroupReads(keen, r, group);
    GroupWhole(false, group, group);
    hide FmtGroup, WfRows, ChainSteps, Reads, Whole;
    ReadsOn(keen, q, acc, r, FmtGroup(group, group, End), ChainSteps(keen, r, group));
  }

  lemma MultilineReads(keen: bool, q: Reader, acc: Text, r: Reader, c: Chain, trailing: Option<string>)
    requires Reads(keen, q, acc, r) && WfChain(c) && IsTrailing(trailing) && r.level.brace == 1 && r.comment.None?
    ensures Reads(keen, q, Append(acc, FmtMultilineChain(c, trailing, End)), MultilineStep(keen, r, c, trailing))
  {
    hide FmtMultilineChain, WfChain, MultilineStep;
    var t, s := FmtMultilineChain(c, trailing, End), MultilineStep(keen, r, c, trailing);
    forall u | Laid(false, u) ensures ReadText(keen, r, Append(t, u)) == ReadText(keen, s, u) {
      MultilineChainAppend(c, trailing, End, u);
      assert Append(End, u) == u;
      MultilineRead(keen, r, c, trailing, u);
    }
    MultilineChainWhole(false, c, trailing);
    ReadsOn(keen, q, acc, r, t, s);
  }

  /** The reader behind what is written while `n` chains before `i` are pending. */
  function Before(keen: bool, r: Reader, chains: seq<Chain>, comments: seq<ChainComments>, i: nat, n: nat): Reader
    requires n <= i <= |chains|
  {
    var s := Marks(keen, r, chains, comments, i - n);
    if n == 0 then s else Ready(s, i - n, ChainAt(comments, i - n))
  }

  /** The chains of the group are those before `i`. */
  predicate Pending(group: seq<Row>, chains: seq<Chain>, comments: seq<ChainComments>, i: nat)
  {
    |group| <= i <= |chains| && RowsFrom(group, chains, comments, i - |group|)
  }

  lemma FlushMarks(keen: bool, q: Reader, acc: Text, r: Reader, group: seq<Row>, chains: seq<Chain>,
      comments: seq<ChainComments>, i: nat)
    requires IsBody(r) && !r.blank && Sees(keen, r.level) && Pending(group, chains, comments, i) && WfRows(group)
    requires Reads(keen, q, acc, Before(keen, r, chains, comments, i, |group|))
    ensures Reads(keen, q, Flush(acc, group), Marks(keen, r, chains, comments, i))
  {
    hide WfRows, Reads, Marks, ChainSteps, Flush, RowsFrom, Again;
    var s := Before(keen, r, chains, comments, i, |group|);
    MarksKeep(keen, r, chains, comments, i - |group|);
    FlushReads(keen, q, acc, s, group);
    if group == [] { NoSteps(keen, s); } else { StepsInGroup(keen, r, chains, comments, i - |group|, group); }
  }

  lemma NoSteps(keen: bool, r: Reader)
    ensures ChainSteps(keen, r, []) == r
  {}

  /** What is written before chain `i` when it has comments or a blank line. */
  lemma BreakMarks(
    keen: bool, q: Reader, acc: Text, r: Reader, group: seq<Row>, chains: seq<Chain>, comments: seq<ChainComments>, i: nat)
    requires IsBody(r) && !r.blank && Sees(keen, r.level) && Pending(group, chains, comments, i) && WfRows(group)
    requires Reads(keen, q, acc, Before(keen, r, chains, comments, i, |group|))
    requires var c := ChainAt(comments, i); IsChainKept(c) && ChainSkips(c)
    ensures
      var c := ChainAt(comments, i);
      Reads(keen, q, Break(acc, group, i, c), Ready(Marks(keen, r, chains, comments, i), i, c))
  {
    hide WfRows, Reads, Flush, BlankLine, Marks, Before, Sees, Again, Remarks, Pending, AreComments, RemarksSkip;
    PendingLength(group, chains, comments, i);
    var c := ChainAt(comments, i);
    FlushMarks(keen, q, acc, r, group, chains, comments, i);
    MarksKeep(keen, r, chains, comments, i);
    var s, flushed := Marks(keen, r, chains, comments, i), Flush(acc, group);
    NotBlankYet(keen, q, flushed, s);
    BlankLineReads(keen, q, flushed, s);
    var s1 := s.(blank := c.blank && i > 0);
    assert s.(blank := false) == s;
    IndentSpaces();
    RemarksReads(keen, q, if c.blank && i > 0 then BlankLine(flushed) else flushed, s1, INDENT, c.leading);
  }

  lemma IndentSpaces()
    ensures AllSpaces(INDENT) && AllSpaces("")
  {}

  lemma PendingOn(group: seq<Row>, chains: seq<Chain>, comments: seq<ChainComments>, i: nat)
    requires Pending(group, chains, comments, i) && i < |chains|
    ensures |group| <= i <= |chains|
    ensures Pending([], chains, comments, i + 1)
    ensures
      var row := Row(chains[i], ChainAt(comments, i).trailing);
      !IsMultiline(chains[i]) ==>
        && Pending([row], chains, comments, i + 1)
        && (!Breaks(ChainAt(comments, i)) || group == [] ==> Pending(group + [row], chains, comments, i + 1))
  {
    hide IsMultiline, Breaks;
    var row := Row(chains[i], ChainAt(comments, i).trailing);
    if !IsMultiline(chains[i]) {
      RowsSnoc([], chains, comments, i);
      assert [] + [row] == [row];
      if !Breaks(ChainAt(comments, i)) || group == [] { RowsSnoc(group, chains, comments, i - |group|); }
    }
  }

  /** Facts about the readers around chain `i`. */
  lemma BeforeFacts(keen: bool, r: Reader, chains: seq<Chain>, comments: seq<ChainComments>, i: nat, n: nat)
    requires IsBody(r) && !r.blank && Sees(keen, r.level) && n <= i < |chains|
    ensures
      var s, c := Marks(keen, r, chains, comments, i), ChainAt(comments, i);
      && Before(keen, r, chains, comments, i + 1, 0) == MultilineStep(keen, Ready(s, i, c), chains[i], c.trailing)
      && Before(keen, r, chains, comments, i + 1, 1) == Ready(s, i, c)
      && (!Breaks(c) ==> Before(keen, r, chains, comments, i + 1, n + 1) == Before(keen, r, chains, comments, i, n))
      && (!Breaks(c) ==> Ready(s, i, c) == s)
      && Ready(s, i, c).level.brace == 1 && Ready(s, i, c).comment.None?
  {
    hide Again, Breaks;
    MarksKeep(keen, r, chains, comments, i);
    if !Breaks(ChainAt(comments, i)) { UnbrokenReady(Marks(keen, r, chains, comments, i), i, ChainAt(comments, i)); }
  }

  /** One chain behind a comment or a blank line. */
  lemma BrokenStep(
    keen: bool, q: Reader, acc: Text, r: Reader, group: seq<Row>, chains: seq<Chain>, comments: seq<ChainComments>, i: nat)
    returns (acc2: Text, group2: seq<Row>)
    requires IsBody(r) && !r.blank && Sees(keen, r.level) && Pending(group, chains, comments, i) && WfRows(group)
    requires i < |chains| && WfChain(chains[i]) && Breaks(ChainAt(comments, i))
    requires var c := ChainAt(comments, i); IsChainKept(c) && ChainSkips(c) && WfRows([Row(chains[i], c.trailing)])
    requires Reads(keen, q, acc, Before(keen, r, chains, comments, i, |group|))
    ensures FmtBody(acc, group, chains, i, comments) == FmtBody(acc2, group2, chains, i + 1, comments)
    ensures Pending(group2, chains, comments, i + 1) && WfRows(group2)
    ensures Reads(keen, q, acc2, Before(keen, r, chains, comments, i + 1, |group2|))
  {
    hide IsMultiline, FmtMultilineChain, WfChain, WfRows, Reads, Marks, Before, Sees, Pending, Flush, Break,
         MultilineStep, Ready,
         ChainAt, AreComments, RemarksSkip, IsBody, IsTrailing;
    var c := ChainAt(comments, i);
    var row, s := Row(chains[i], c.trailing), Ready(Marks(keen, r, chains, comments, i), i, c);
    PendingOn(group, chains, comments, i);
    BeforeFacts(keen, r, chains, comments, i, |group|);
    BreakMarks(keen, q, acc, r, group, chains, comments, i);
    var acc1 := Break(acc, group, i, c);
    if IsMultiline(chains[i]) {
      acc2, group2 := Append(Flush(acc1, []), FmtMultilineChain(chains[i], c.trailing, End)), [];
      NoRows();
      FlushReads(keen, q, acc1, s, []);
      NoSteps(keen, s);
      MultilineReads(keen, q, Flush(acc1, []), s, chains[i], c.trailing);
    } else {
      acc2, group2 := acc1, [row];
      assert [] + [row] == [row];
    }
  }

  lemma NoRows()
    ensures WfRows([])
  {}

  /** One chain that goes on with the group. */
  lemma UnbrokenStep(
    keen: bool, q: Reader, acc: Text, r: Reader, group: seq<Row>, chains: seq<Chain>, comments: seq<ChainComments>, i: nat)
    returns (acc2: Text, group2: seq<Row>)
    requires IsBody(r) && !r.blank && Sees(keen, r.level) && Pending(group, chains, comments, i) && WfRows(group)
    requires i < |chains| && WfChain(chains[i]) && !Breaks(ChainAt(comments, i))
    requires var c := ChainAt(comments, i); IsTrailing(c.trailing) && WfRows(group + [Row(chains[i], c.trailing)])
    requires Reads(keen, q, acc, Before(keen, r, chains, comments, i, |group|))
    ensures FmtBody(acc, group, chains, i, comments) == FmtBody(acc2, group2, chains, i + 1, comments)
    ensures Pending(group2, chains, comments, i + 1) && WfRows(group2)
    ensures Reads(keen, q, acc2, Before(keen, r, chains, comments, i + 1, |group2|))
  {
    hide IsMultiline, FmtMultilineChain, WfChain, WfRows, Reads, Marks, Before, Sees, Pending, Flush, Break,
         MultilineStep, Ready,
         ChainAt, IsBody, IsTrailing, Breaks;
    var c := ChainAt(comments, i);
    PendingOn(group, chains, comments, i);
    BeforeFacts(keen, r, chains, comments, i, |group|);
    if IsMultiline(chains[i]) {
      acc2, group2 := Append(Flush(acc, group), FmtMultilineChain(chains[i], c.trailing, End)), [];
      NoRows();
      FlushMarks(keen, q, acc, r, group, chains, comments, i);
      MultilineReads(keen, q, Flush(acc, group), Marks(keen, r, chains, comments, i), chains[i], c.trailing);
    } else {
      acc2, group2 := acc, group + [Row(chains[i], c.trailing)];
    }
  }

  /** A body that is noticed is read as its chains with their comments and blank lines. */
  lemma {:induction false} BodyReads(
    keen: bool, q: Reader, acc: Text, r: Reader, group: seq<Row>, chains: seq<Chain>, comments: seq<ChainComments>, i: nat)
    requires IsBody(r) && !r.blank && Sees(keen, r.level) && Pending(group, chains, comments, i) && WfRows(group)
    requires (forall k :: 0 <= k < |chains| ==> WfChain(chains[k])) && ChainsSkip(comments) && ChainsKept(comments)
    requires Reads(keen, q, acc, Before(keen, r, chains, comments, i, |group|))
    ensures Reads(keen, q, FmtBody(acc, group, chains, i, comments), Marks(keen, r, chains, comments, |chains|))
    decreases |chains| - i
  {
    hide WfChain, WfRows, Reads, Marks, Before, Sees, Pending, Flush, ChainsSkip, ChainsKept, ChainAt, IsBody, Breaks,
         FmtBody,
         ChainSkips, IsChainKept;
    PendingLength(group, chains, comments, i);
    if i < |chains| {
      ChainFacts(chains[i], group, comments, i);
      KeptAt(comments, i);
      var acc2, group2;
      if Breaks(ChainAt(comments, i)) {
        acc2, group2 := BrokenStep(keen, q, acc, r, group, chains, comments, i);
      } else {
        acc2, group2 := UnbrokenStep(keen, q, acc, r, group, chains, comments, i);
      }
      BodyReads(keen, q, acc2, r, group2, chains, comments, i + 1);
    } else {
      LastFlush(acc, group, chains, comments);
      FlushMarks(keen, q, acc, r, group, chains, comments, i);
    }
  }

  lemma LastFlush(acc: Text, group: seq<Row>, chains: seq<Chain>, comments: seq<ChainComments>)
    ensures FmtBody(acc, group, chains, |chains|, comments) == Flush(acc, group)
  {}

  lemma PendingLength(group: seq<Row>, chains: seq<Chain>, comments: seq<ChainComments>, i: nat)
    requires Pending(group, chains, comments, i)
    ensures |group| <= i <= |chains|
  {}

  lemma KeptAt(comments: seq<ChainComments>, i: nat)
    requires ChainsKept(comments)
    ensures IsChainKept(ChainAt(comments, i))
  {
    hide Behind;
    assert AreComments([]) by { NoComment(); }
  }

  // ---- Bodies that are not noticed ----

  /** The same reader but for what waits for a chain. */
  predicate IsUnseen(r: Reader, s: Reader) { s == r.(blank := s.blank, body := s.body) }

  lemma {:induction false} UnseenSteps(r: Reader, rows: seq<Row>)
    requires !IsFlat(r.level)
    ensures ChainSteps(false, r, rows) == r
    decreases rows
  {
    if rows != [] { UnseenSteps(r, rows[1..]); }
  }

  lemma UnseenFlush(q: Reader, acc: Text, s: Reader, group: seq<Row>)
    requires IsBody(s) && !IsFlat(s.level) && Reads(false, q, acc, s) && WfRows(group)
    ensures Reads(false, q, Flush(acc, group), s)
  {
    UnseenSteps(s, group);
    FlushReads(false, q, acc, s, group);
  }

  lemma UnseenBreak(q: Reader, acc: Text, s: Reader, group: seq<Row>, i: nat, c: ChainComments) returns (s1: Reader)
    requires IsBody(s) && !IsFlat(s.level) && Reads(false, q, acc, s) && WfRows(group) && IsChainKept(c) && ChainSkips(c)
    ensures Reads(false, q, Break(acc, group, i, c), s1) && IsUnseen(s, s1)
  {
    hide Reads, Flush, WfRows, Remarks, Again, AreComments, RemarksSkip;
    UnseenFlush(q, acc, s, group);
    var flushed := Flush(acc, group);
    BlankLineReads(false, q, flushed, s);
    var blank := c.blank && i > 0 && !EndsWithBlankLine(Render(flushed));
    s1 := s.(blank := s.blank || blank);
    assert s.(blank := s.blank) == s;
    IndentSpaces();
    RemarksReads(false, q, if c.blank && i > 0 then BlankLine(flushed) else flushed, s1, INDENT, c.leading);
    s1 := Kept(s1, Again(false, INDENT, c.leading));
  }

  /** In a body behind unbalanced annotations no chain is noticed. */
  lemma {:induction false} UnseenBody(
    q: Reader, acc: Text, r: Reader, group: seq<Row>, chains: seq<Chain>, comments: seq<ChainComments>, i: nat) returns (s: Reader)
    requires IsBody(r) && !IsFlat(r.level) && i <= |chains| && Reads(false, q, acc, r) && WfRows(group)
    requires (forall k :: 0 <= k < |chains| ==> WfChain(chains[k])) && ChainsSkip(comments) && ChainsKept(comments)
    ensures Reads(false, q, FmtBody(acc, group, chains, i, comments), s) && IsUnseen(r, s)
    decreases |chains| - i
  {
    hide IsMultiline, FmtMultilineChain, WfChain, WfRows, Reads, Flush, Break, ChainsSkip, ChainsKept, ChainAt, Breaks,
         ChainSkips,
         IsChainKept;
    UnseenFlush(q, acc, r, group);
    if i == |chains| {
      s := r;
    } else {
      var c := ChainAt(comments, i);
      ChainFacts(chains[i], group, comments, i);
      KeptAt(comments, i);
      var acc1, group1, r1 := acc, group, r;
      if Breaks(c) {
        r1 := UnseenBreak(q, acc, r, group, i, c);
        acc1, group1 := Break(acc, group, i, c), [];
      }
      if IsMultiline(chains[i]) {
        UnseenFlush(q, acc1, r1, group1);
        MultilineReads(false, q, Flush(acc1, group1), r1, chains[i], c.trailing);
        s := UnseenBody(q, Append(Flush(acc1, group1), FmtMultilineChain(chains[i], c.trailing, End)), r1, [], chains, comments, i + 1);
      } else {
        assert [] + [Row(chains[i], c.trailing)] == [Row(chains[i], c.trailing)];
        s := UnseenBody(q, acc1, r1, group1 + [Row(chains[i], c.trailing)], chains, comments, i + 1);
      }
    }
  }

  // ---- Declarations ----

  /** The reader in the body of a callable. */
  function Opened(r: Reader, c: Callable): Reader
  {
    DeclStep(r, "node").(level := TokenLevel(HeaderLevel(r.level, c), LBrace))
  }

  function AfterCallable(keen: bool, r: Reader, c: Callable, comments: seq<ChainComments>): Reader
  {
    var body := Opened(r, c);
    var s := if Sees(keen, body.level) then Marks(keen, body, c.chains, comments, |c.chains|) else body;
    s.(open := None, blank := false, body := [], level := HeaderLevel(r.level, c))
  }

  /** The reader behind a declaration and the comments before it. */
  function AfterDecl(keen: bool, r: Reader, d: Decl, c: DeclComments): Reader
  {
    var r1 := Kept(r, Again(false, "", c.leading));
    match d
    case Node(n) => AfterCallable(keen, r1, n, c.chains)
    case Program(n) => AfterCallable(keen, r1, n, c.chains)
    case _ => AfterPlain(r1, d)
  }

  predicate IsCallable(d: Decl) { d.Node? || d.Program? }

  /** Outside of all declarations, with more of them to come. */
  predicate IsReady(r: Reader) { IsOutside(r) && r.next < |r.layout| && !r.blank && r.body == [] }

  lemma HeaderAppend(kind: Text, c: Callable, u: Text)
    requires IsKind(kind)
    ensures Append(FmtHeader(kind, c, End), u) == FmtHeader(kind, c, u)
  {
    FormatAppend.Unfold();
    hide FmtPortOrList, FmtInputs, FmtParams;
    var brace := W(" ", T(LBrace, NewLine(End)));
    var outputs := FmtPortOrList(c.outputs, brace);
    var arrow := W(" ", T(Arrow, W(" ", outputs)));
    PortOrListAppend(c.outputs, brace, u);
    InputsAppend(c.inputs, arrow, u);
    ParamsAppend(c.nodeParams, FmtInputs(c.inputs, arrow), u);
  }

  lemma KindRead(keen: bool, r: Reader, kind: Text, rest: Text, level: Level, k: Text)
    requires IsReady(r) && IsKind(kind) && rest.W? && rest.gap == " " && Laid(false, Append(kind, rest))
    requires Through(r.level, rest) == Some(Line(level, None, k)) && level.brace == 1
    ensures ReadText(keen, r, Append(kind, rest)) == ReadText(keen, DeclStep(r, "node").(level := level), k)
  {
    FormatAppend.Unfold();
    PrintedLevels.Unfold();
    hide Laid, Through, ReadText, SetLeading;
    var line := Line(level, None, k);
    if kind == EXTERN_NODE {
      DeclLine(keen, r, "extern", W(" ", T(Ident("node"), rest)), line);
    } else if kind == NODE {
      DeclLine(keen, r, "node", rest, line);
    } else {
      DeclLine(keen, r, "program", rest, line);
    }
  }

  lemma HeaderRead(keen: bool, r: Reader, kind: Text, c: Callable, k: Text)
    requires IsReady(r) && IsKind(kind) && WfCallable(c) && Laid(false, FmtHeader(kind, c, k))
    ensures ReadText(keen, r, FmtHeader(kind, c, k)) == ReadText(keen, Opened(r, c), k)
  {
    hide FmtPortOrList, FmtInputs, FmtParams, HeaderLevel, WfCallable, Laid, Through, ReadText, IsKind;
    SignatureLevel(r.level, c, k);
    HeaderBraces(r.level, c);
    var outputs := FmtPortOrList(c.outputs, W(" ", T(LBrace, NewLine(k))));
    var inputs := FmtInputs(c.inputs, W(" ", T(Arrow, W(" ", outputs))));
    var rest := W(" ", T(Ident(c.name), FmtParams(c.nodeParams, inputs)));
    KindRead(keen, r, kind, rest, TokenLevel(HeaderLevel(r.level, c), LBrace), k);
  }

  lemma HeaderReads(keen: bool, q: Reader, acc: Text, r: Reader, kind: Text, c: Callable)
    requires Reads(keen, q, acc, r) && IsReady(r) && IsKind(kind) && WfCallable(c)
    ensures Reads(keen, q, Append(acc, FmtHeader(kind, c, End)), Opened(r, c))
  {
    HeaderWhole(false, kind, c);
    var t := FmtHeader(kind, c, End);
    hide FmtHeader, WfCallable, Opened;
    forall u | Laid(false, u) ensures ReadText(keen, r, Append(t, u)) == ReadText(keen, Opened(r, c), u) {
      HeaderAppend(kind, c, u);
      AppendSafe(false, t, u);
      HeaderRead(keen, r, kind, c, u);
    }
    ReadsOn(keen, q, acc, r, t, Opened(r, c));
  }

  /** The last line of a callable. */
  lemma BraceReads(keen: bool, q: Reader, acc: Text, s: Reader)
    requires Reads(keen, q, acc, s) && IsBody(s)
    ensures
      Reads(keen, q, Append(acc, T(RBrace, NewLine(End))),
        s.(open := None, blank := false, body := [], level := TokenLevel(s.level, RBrace)))
  {
    var last := T(RBrace, NewLine(End));
    var s1 := s.(open := None, blank := false, body := [], level := TokenLevel(s.level, RBrace));
    BraceWhole(false);
    FormatAppend.Unfold();
    PrintedLevels.Unfold();
    hide Through, Laid, Ends, ReadText;
    forall u | Laid(false, u) ensures ReadText(keen, s, Append(last, u)) == ReadText(keen, s1, u) {
      AppendSafe(false, last, u);
      InnerLine(keen, s, T(RBrace, NewLine(u)), Line(s1.level, None, u), RBrace);
    }
    ReadsOn(keen, q, acc, s, last, s1);
  }

  lemma SeenCallable(keen: bool, q: Reader, start: Text, body: Reader, chains: seq<Chain>, comments: seq<ChainComments>)
    requires Reads(keen, q, start, body) && IsBody(body) && !body.blank && Sees(keen, body.level)
    requires (forall k :: 0 <= k < |chains| ==> WfChain(chains[k])) && ChainsSkip(comments) && ChainsKept(comments)
    ensures
      var s := Marks(keen, body, chains, comments, |chains|);
      Reads(keen, q, Append(FmtBody(start, [], chains, 0, comments), T(RBrace, NewLine(End))),
        s.(open := None, blank := false, body := [], level := TokenLevel(body.level, RBrace)))
  {
    hide Reads, FmtBody, WfChain, Sees, ChainsSkip, ChainsKept;
    assert Before(keen, body, chains, comments, 0, 0) == body;
    NoRows();
    BodyReads(keen, q, start, body, [], chains, comments, 0);
    MarksKeep(keen, body, chains, comments, |chains|);
    BraceReads(keen, q, FmtBody(start, [], chains, 0, comments), Marks(keen, body, chains, comments, |chains|));
  }

  lemma UnseenCallable(q: Reader, start: Text, body: Reader, chains: seq<Chain>, comments: seq<ChainComments>)
    requires Reads(false, q, start, body) && IsBody(body) && !IsFlat(body.level)
    requires (forall k :: 0 <= k < |chains| ==> WfChain(chains[k])) && ChainsSkip(comments) && ChainsKept(comments)
    ensures
      Reads(false, q, Append(FmtBody(start, [], chains, 0, comments), T(RBrace, NewLine(End))),
        body.(open := None, blank := false, body := [], level := TokenLevel(body.level, RBrace)))
  {
    hide Reads, FmtBody, WfChain, ChainsSkip, ChainsKept;
    NoRows();
    var s := UnseenBody(q, start, body, [], chains, comments, 0);
    BraceReads(false, q, FmtBody(start, [], chains, 0, comments), s);
  }

  lemma CallableReads(keen: bool, q: Reader, acc: Text, r: Reader, kind: Text, c: Callable, comments: seq<ChainComments>)
    requires Reads(keen, q, acc, r) && IsReady(r) && IsKind(kind) && WfCallable(c) && ChainsSkip(comments)
             && ChainsKept(comments)
    ensures Reads(keen, q, FmtCallable(acc, kind, c, comments), AfterCallable(keen, r, c, comments))
  {
    hide FmtHeader, HeaderLevel, Reads, FmtBody, IsKind, WfChain, Marks, ChainsSkip, ChainsKept, SetLeading;
    HeaderReads(keen, q, acc, r, kind, c);
    HeaderBraces(r.level, c);
    var body := Opened(r, c);
    var start := Append(acc, FmtHeader(kind, c, End));
    assert TokenLevel(body.level, RBrace) == HeaderLevel(r.level, c);
    if Sees(keen, body.level) {
      SeenCallable(keen, q, start, body, c.chains, comments);
    } else {
      UnseenCallable(q, start, body, c.chains, comments);
    }
  }

  lemma PlainRead(keen: bool, r: Reader, d: Decl, u: Text)
    requires IsOutside(r) && WfDecl(d) && !d.Node? && !d.Program? && Laid(false, Append(FmtDecl(End, d, []), u))
    ensures ReadText(keen, r, Append(FmtDecl(End, d, []), u)) == ReadText(keen, AfterPlain(r, d), u)
  {
    assert Append(End, u) == u;
    hide FmtAlias, FmtStruct, FmtImport, FmtForeign, Laid, ReadText, WfType, WfPorts, WfForeignNode, DeclLevel;
    match d
    case TypeAlias(n, ty) =>
      AliasAppend(n, ty, End, u);
      AliasRead(keen, r, n, ty, u);
    case StructDecl(n, fields) =>
      StructAppend(n, fields, End, u);
      StructRead(keen, r, n, fields, u);
    case Import(source, clause) =>
      ImportAppend(source, clause, End, u);
      ImportRead(keen, r, source, clause, u);
    case Foreign(language, origin, nodes) =>
      ForeignAppend(language, origin, nodes, End, u);
      ForeignRead(keen, r, language, origin, nodes, u);
  }

  lemma PlainReads(keen: bool, q: Reader, acc: Text, r: Reader, d: Decl)
    requires Reads(keen, q, acc, r) && IsOutside(r) && WfDecl(d) && !IsCallable(d)
    ensures Reads(keen, q, Append(acc, FmtDecl(End, d, [])), AfterPlain(r, d))
  {
    var t := FmtDecl(End, d, []);
    EmptyWhole(false);
    DeclWhole(false, End, d, []);
    hide FmtDecl, AfterPlain, WfDecl;
    forall u | Laid(false, u) ensures ReadText(keen, r, Append(t, u)) == ReadText(keen, AfterPlain(r, d), u) {
      AppendSafe(false, t, u);
      PlainRead(keen, r, d, u);
    }
    ReadsOn(keen, q, acc, r, t, AfterPlain(r, d));
  }

  /** A declaration and the comments before it are kept. */
  predicate DeclKept(c: DeclComments)
  {
    AreComments(c.leading) && RemarksSkip("", c.leading) && ChainsKept(c.chains) && ChainsSkip(c.chains)
  }

  lemma DeclReads(keen: bool, q: Reader, acc: Text, r: Reader, d: Decl, c: DeclComments)
    requires Reads(keen, q, acc, r) && IsOutside(r) && (IsCallable(d) ==> IsReady(r)) && WfDecl(d) && DeclKept(c)
    ensures Reads(keen, q, FmtDecl(Append(acc, Remarks("", c.leading)), d, c.chains), AfterDecl(keen, r, d, c))
  {
    hide Reads, FmtCallable, Remarks, Again, WfCallable, AreComments, RemarksSkip, ChainsKept, ChainsSkip, FmtAlias,
         FmtStruct, FmtImport,
         FmtForeign, AfterPlain, AfterCallable;
    IndentSpaces();
    RemarksReads(keen, q, acc, r, "", c.leading);
    var acc1, r1 := Append(acc, Remarks("", c.leading)), Kept(r, Again(false, "", c.leading));
    if IsCallable(d) {
      var kind := if d.Program? then PROGRAM else if d.callable.isExtern then EXTERN_NODE else NODE;
      CallableReads(keen, q, acc1, r1, kind, d.callable, c.chains);
    } else {
      PlainReads(keen, q, acc1, r1, d);
    }
  }

  /** The reader behind all declarations from `i` on. */
  function AfterDecls(keen: bool, r: Reader, ds: seq<Decl>, i: nat, layout: Layout): Reader
    requires i <= |ds|
    decreases |ds| - i
  {
    if i == |ds| then r else AfterDecls(keen, AfterDecl(keen, r, ds[i], DeclAt(layout, i)), ds, i + 1, layout)
  }

  /** What is read for chain `j`. */
  function ReadChain(keen: bool, l: Level, chain: Chain, c: ChainComments, j: nat): ChainComments
  {
    if !Sees(keen, l) then BARE
    else
      ChainComments(c.blank && j > 0, Again(false, INDENT, c.leading),
        if !keen && IsLongStruct(chain.source) then None else c.trailing)
  }

  lemma OneMark(keen: bool, s: Reader, chain: Chain, c: ChainComments, j: nat)
    requires IsBody(s) && !s.blank && Sees(keen, s.level) && s.chain == j
    requires HasChain(s.layout, s.open.value, j) ==> s.body == [] && s.layout[s.open.value].chains[j] == BARE
    ensures
      var t, d := MultilineStep(keen, Ready(s, j, c), chain, c.trailing), s.open.value;
      && t.chain == j + 1
      && (HasChain(s.layout, d, j) ==>
            t.body == [] && t.layout == SetChain(s.layout, d, j, ReadChain(keen, s.level, chain, c, j)))
      && (!HasChain(s.layout, d, j) ==> t.layout == s.layout)
  {
    hide IsLongStruct, Again;
    var d, again := s.open.value, Again(false, INDENT, c.leading);
    assert [] + again == again;
    if HasChain(s.layout, d, j) {
      SetTwice(s.layout, d, j, ChainComments(c.blank && j > 0, again, None), ChainComments(c.blank && j > 0, again, c.trailing));
    }
  }

  lemma SetTwice(layout: Layout, d: nat, i: nat, a: ChainComments, b: ChainComments)
    requires HasChain(layout, d, i)
    ensures HasChain(SetChain(layout, d, i, a), d, i) && SetChain(layout, d, i, a)[d].chains[i] == a
    ensures SetChain(SetChain(layout, d, i, a), d, i, b) == SetChain(layout, d, i, b)
  {
    var cs := layout[d].chains;
    assert cs[i := a][i := b] == cs[i := b];
    var x, y := layout[d].(chains := cs[i := a]), layout[d].(chains := cs[i := b]);
    assert layout[d := x][d := y] == layout[d := y];
  }

  /** All chains of a row. */
  lemma {:induction false} MarksRow(keen: bool, r: Reader, chains: seq<Chain>, comments: seq<ChainComments>, n: nat)
    requires IsBody(r) && !r.blank && r.body == [] && Sees(keen, r.level) && r.open.value < |r.layout|
             && r.chain == 0 && n <= |chains|
    requires forall k :: 0 <= k < |r.layout[r.open.value].chains| ==> r.layout[r.open.value].chains[k] == BARE
    ensures
      var s, d := Marks(keen, r, chains, comments, n), r.open.value;
      && s.chain == n && |s.layout| == |r.layout| && (n <= |r.layout[d].chains| ==> s.body == [])
      && s.layout[d].leading == r.layout[d].leading && |s.layout[d].chains| == |r.layout[d].chains|
      && (forall k :: 0 <= k < |r.layout| && k != d ==> s.layout[k] == r.layout[k])
      && forall k :: 0 <= k < |r.layout[d].chains| ==>
           s.layout[d].chains[k] == if k < n then ReadChain(keen, r.level, chains[k], ChainAt(comments, k), k) else BARE
  {
    hide ReadChain, MultilineStep, Ready;
    if n > 0 {
      MarksRow(keen, r, chains, comments, n - 1);
      MarksKeep(keen, r, chains, comments, n - 1);
      OneMark(keen, Marks(keen, r, chains, comments, n - 1), chains[n - 1], ChainAt(comments, n - 1), n - 1);
    }
  }

  lemma PlainBraces(l: Level, d: Decl)
    requires WfDecl(d)
    ensures DeclLevel(l, d).brace == l.brace
  {
    match d
    case TypeAlias(n, ty) => TypeBraces(true, 0, l, ty);
    case StructDecl(n, fields) => PortsBraces(l, fields);
    case Import(_, _) =>
    case Foreign(_, _, nodes) => NodesBraces(l, nodes);
    case Node(c) => HeaderBraces(l, c);
    case Program(c) => HeaderBraces(l, c);
  }

  lemma {:induction false} NodesBraces(l: Level, ns: seq<ForeignNode>)
    requires forall i :: 0 <= i < |ns| ==> WfForeignNode(ns[i])
    ensures NodesLevel(l, ns).brace == l.brace
    decreases ns
  {
    if ns != [] {
      assert WfForeignNode(ns[0]);
      PortsBraces(l, ns[0].inputs);
      PortsBraces(PortsLevel(l, ns[0].inputs), ns[0].outputs);
      NodesBraces(PortsLevel(PortsLevel(l, ns[0].inputs), ns[0].outputs), ns[1..]);
    }
  }

  lemma AfterDeclKeeps(keen: bool, r: Reader, d: Decl, c: DeclComments)
    requires IsOutside(r) && !r.blank && r.body == [] && (IsCallable(d) ==> IsReady(r)) && WfDecl(d)
    ensures
      var s := AfterDecl(keen, r, d, c);
      && IsOutside(s) && !s.blank && s.body == [] && |s.layout| == |r.layout| && s.level == DeclLevel(r.level, d)
      && s.next == (if r.next < |r.layout| then r.next + 1 else r.next)
      && s.top == (if r.next < |r.layout| then [] else r.top + Again(false, "", c.leading))
  {
    PlainBraces(r.level, d);
    hide HeaderLevel, WfDecl, Again;
    var r1 := Kept(r, Again(false, "", c.leading));
    if IsCallable(d) {
      var body, chains := Opened(r1, d.callable), d.callable.chains;
      assert body.level.brace == 1 && body.open.Some? && body.comment.None? && !body.blank;
      if Sees(keen, body.level) {
        MarksKeep(keen, body, chains, c.chains, |chains|);
        MarksLength(keen, body, chains, c.chains, |chains|);
      }
    }
  }

  lemma {:induction false} MarksLength(keen: bool, r: Reader, chains: seq<Chain>, comments: seq<ChainComments>, n: nat)
    requires IsBody(r) && !r.blank && Sees(keen, r.level) && n <= |chains|
    ensures |Marks(keen, r, chains, comments, n).layout| == |r.layout|
  {
    hide Again, Breaks;
    if n > 0 {
      MarksLength(keen, r, chains, comments, n - 1);
      MarksKeep(keen, r, chains, comments, n - 1);
    }
  }

  lemma DeclsStep(keen: bool, acc: Text, r: Reader, ds: seq<Decl>, i: nat, layout: Layout) returns (acc1: Text)
    requires i < |ds|
    ensures acc1 == acc || acc1 == BlankLine(acc)
    ensures
      var c := DeclAt(layout, i);
      FmtDecls(acc, ds, i, layout) == FmtDecls(FmtDecl(Append(acc1, Remarks("", c.leading)), ds[i], c.chains), ds, i + 1, layout)
    ensures AfterDecls(keen, r, ds, i, layout)
            == AfterDecls(keen, AfterDecl(keen, r, ds[i], DeclAt(layout, i)), ds, i + 1, layout)
  {
    hide FmtDecl, AfterDecl, NeedsBlankBetween, BlankLine, Remarks;
    acc1 := if i > 0 && NeedsBlankBetween(ds[i - 1], ds[i]) then BlankLine(acc) else acc;
  }

  /** Blank lines between declarations are not noticed. */
  lemma BetweenReads(keen: bool, q: Reader, acc: Text, r: Reader)
    requires Reads(keen, q, acc, r) && r.open.None? && r.comment.None?
    ensures Reads(keen, q, BlankLine(acc), r)
  {
    BlankLineReads(keen, q, acc, r);
    hide Reads;
  }

  predicate LayoutKept(layout: Layout) { forall i :: 0 <= i < |layout| ==> DeclKept(layout[i]) }

  lemma DeclKeptAt(layout: Layout, i: nat)
    requires LayoutKept(layout)
    ensures DeclKept(DeclAt(layout, i))
  {
    BareSkips();
    assert AreComments([]) by { NoComment(); }
    hide AreComments, RemarksSkip;
  }

  lemma {:induction false} DeclsRead(keen: bool, q: Reader, acc: Text, r: Reader, ds: seq<Decl>, i: nat, layout: Layout)
    requires Reads(keen, q, acc, r) && i <= |ds| && (forall k :: 0 <= k < |ds| ==> WfDecl(ds[k])) && LayoutKept(layout)
    requires IsOutside(r) && !r.blank && r.body == []
    requires forall k :: i <= k < |ds| && IsCallable(ds[k]) ==> r.next + (k - i) < |r.layout|
    ensures Reads(keen, q, FmtDecls(acc, ds, i, layout), AfterDecls(keen, r, ds, i, layout))
    decreases |ds| - i
  {
    hide Reads, FmtDecl, AfterDecl, WfDecl, BlankLine, Remarks, LayoutKept, DeclKept;
    if i < |ds| {
      var acc1 := DeclsStep(keen, acc, r, ds, i, layout);
      hide FmtDecls, AfterDecls, DeclAt;
      var d, c := ds[i], DeclAt(layout, i);
      DeclKeptAt(layout, i);
      BetweenReads(keen, q, acc, r);
      DeclReads(keen, q, acc1, r, d, c);
      AfterDeclKeeps(keen, r, d, c);
      DeclsRead(keen, q, FmtDecl(Append(acc1, Remarks("", c.leading)), d, c.chains), AfterDecl(keen, r, d, c), ds, i + 1, layout);
    }
  }

  // ---- The layout that is read ----

  /** The comments a declaration is read back with. */
  function ReadDecl(keen: bool, l: Level, d: Decl, c: DeclComments): DeclComments
  {
    DeclComments(Again(false, "", c.leading),
      seq(|ChainsOf(d)|, j requires 0 <= j < |ChainsOf(d)| => ReadChain(keen, DeclLevel(l, d), ChainsOf(d)[j], ChainAt(c.chains, j), j)))
  }

  function ReadBack(keen: bool, ds: seq<Decl>, layout: Layout): Layout
  {
    seq(|ds|, i requires 0 <= i < |ds| => ReadDecl(keen, DeclsLevel(BOTTOM, ds, i), ds[i], DeclAt(layout, i)))
  }

  lemma SameSight(keen: bool, l: Level, m: Level, chain: Chain, c: ChainComments, j: nat)
    requires l.paren == m.paren && l.bracket == m.bracket
    ensures ReadChain(keen, l, chain, c, j) == ReadChain(keen, m, chain, c, j)
  {}

  lemma CallableRow(keen: bool, r: Reader, c: Callable, comments: seq<ChainComments>)
    requires IsReady(r) && WfCallable(c) && |r.layout[r.next].chains| == |c.chains|
    requires forall k :: 0 <= k < |c.chains| ==> r.layout[r.next].chains[k] == BARE
    ensures
      var s, l := AfterCallable(keen, r, c, comments), HeaderLevel(r.level, c);
      && |s.layout| == |r.layout| && s.layout[r.next].leading == r.layout[r.next].leading + r.top
      && |s.layout[r.next].chains| == |c.chains|
      && (forall k :: 0 <= k < |r.layout| && k != r.next ==> s.layout[k] == r.layout[k])
      && forall k :: 0 <= k < |c.chains| ==>
          s.layout[r.next].chains[k] == ReadChain(keen, l, c.chains[k], ChainAt(comments, k), k)
  {
    HeaderBraces(r.level, c);
    hide HeaderLevel, WfCallable, Marks;
    var body, l := Opened(r, c), HeaderLevel(r.level, c);
    assert body.level.brace == 1 && body.level.paren == l.paren && body.level.bracket == l.bracket;
    if Sees(keen, body.level) {
      MarksRow(keen, body, c.chains, comments, |c.chains|);
      forall k | 0 <= k < |c.chains|
        ensures ReadChain(keen, body.level, c.chains[k], ChainAt(comments, k), k)
                == ReadChain(keen, l, c.chains[k], ChainAt(comments, k), k)
      {
        SameSight(keen, body.level, l, c.chains[k], ChainAt(comments, k), k);
      }
    }
  }

  lemma DeclRow(keen: bool, r: Reader, d: Decl, c: DeclComments)
    requires IsReady(r) && r.top == [] && WfDecl(d) && r.layout[r.next] == NoComments(d)
    ensures
      var s := AfterDecl(keen, r, d, c);
      && |s.layout| == |r.layout| && s.layout[r.next] == ReadDecl(keen, r.level, d, c)
      && forall k :: 0 <= k < |r.layout| && k != r.next ==> s.layout[k] == r.layout[k]
  {
    hide WfCallable, HeaderLevel, Again, ReadChain;
    var again := Again(false, "", c.leading);
    var r1, s := Kept(r, again), AfterDecl(keen, r, d, c);
    assert [] + ([] + again) == again && [] + again == again;
    if IsCallable(d) {
      CallableRow(keen, r1, d.callable, c.chains);
      assert s.layout[r.next].chains == ReadDecl(keen, r.level, d, c).chains;
    }
  }

  lemma ReadBackAt(keen: bool, ds: seq<Decl>, layout: Layout, i: nat)
    requires i < |ds|
    ensures |ReadBack(keen, ds, layout)| == |ds|
    ensures ReadBack(keen, ds, layout)[i] == ReadDecl(keen, DeclsLevel(BOTTOM, ds, i), ds[i], DeclAt(layout, i))
  {}

  /** The rows before `i` are read, the others are as at the start. */
  predicate IsHalfRead(keen: bool, r: Reader, ds: seq<Decl>, i: nat, layout: Layout)
    requires i <= |ds|
  {
    && IsOutside(r) && !r.blank && r.body == [] && r.top == [] && r.next == i && |r.layout| == |ds|
    && r.level == DeclsLevel(BOTTOM, ds, i)
    && (forall k :: 0 <= k < i ==> r.layout[k] == ReadBack(keen, ds, layout)[k])
    && (forall k :: i <= k < |ds| ==> r.layout[k] == NoComments(ds[k]))
  }

  lemma HalfReadOn(keen: bool, r: Reader, ds: seq<Decl>, i: nat, layout: Layout)
    requires i < |ds| && IsHalfRead(keen, r, ds, i, layout) && WfDecl(ds[i])
    ensures IsHalfRead(keen, AfterDecl(keen, r, ds[i], DeclAt(layout, i)), ds, i + 1, layout)
  {
    hide AfterDecl, WfDecl, ReadDecl, ReadBack, NoComments, DeclLevel, DeclAt;
    ReadBackAt(keen, ds, layout, i);
    DeclRow(keen, r, ds[i], DeclAt(layout, i));
    AfterDeclKeeps(keen, r, ds[i], DeclAt(layout, i));
  }

  lemma {:induction false} LayoutIs(keen: bool, r: Reader, ds: seq<Decl>, i: nat, layout: Layout)
    requires i <= |ds| && (forall k :: 0 <= k < |ds| ==> WfDecl(ds[k])) && IsHalfRead(keen, r, ds, i, layout)
    ensures
      var s := AfterDecls(keen, r, ds, i, layout);
      && s.layout == ReadBack(keen, ds, layout)
      && s.next == |s.layout| && s.open.None?
    decreases |ds| - i
  {
    hide AfterDecl, WfDecl, ReadBack, DeclsLevel;
    if i < |ds| {
      HalfReadOn(keen, r, ds, i, layout);
      hide IsHalfRead;
      LayoutIs(keen, AfterDecl(keen, r, ds[i], DeclAt(layout, i)), ds, i + 1, layout);
    } else {
      assert |ReadBack(keen, ds, layout)| == |ds| by { BackLength(keen, ds, layout); }
      assert r.layout == ReadBack(keen, ds, layout);
    }
  }

  lemma BackLength(keen: bool, ds: seq<Decl>, layout: Layout)
    ensures |ReadBack(keen, ds, layout)| == |ds|
  {}

  /**
   * A printed module is read back with the comments and blank lines it was printed with, but for those of callables
   * behind annotations whose parentheses and brackets do not match, and those behind long struct literals.
   */
  lemma PrintedLayout(keen: bool, m: Module, layout: Layout)
    requires WfModule(m) && LayoutKept(layout)
    ensures
      Finish(ReadLines(keen, Start(m.declarations), Render(FmtModule(m, layout)))) == ReadBack(keen, m.declarations, layout)
  {
    var ds := m.declarations;
    var r := Start(ds);
    var t := FmtDecls(End, ds, 0, layout);
    ReadsNothing(keen, r);
    hide WfDecl, Reads, LayoutKept;
    DeclsRead(keen, r, End, r, ds, 0, layout);
    var s := AfterDecls(keen, r, ds, 0, layout);
    ReadsAll(keen, r, t, s);
    LayoutIs(keen, r, ds, 0, layout);
    DeclsEnd(keen, r, ds, 0, layout);
    if FmtModule(m, layout) != t {
      BlankLineReads(keen, r, t, s);
      ReadsAll(keen, r, Append(t, NewLine(End)), if s.open.Some? then s.(blank := true) else s);
    }
  }

  lemma {:induction false} DeclsEnd(keen: bool, r: Reader, ds: seq<Decl>, i: nat, layout: Layout)
    requires i <= |ds| && (forall k :: 0 <= k < |ds| ==> WfDecl(ds[k])) && IsOutside(r) && !r.blank && r.body == []
    requires forall k :: i <= k < |ds| && IsCallable(ds[k]) ==> r.next + (k - i) < |r.layout|
    ensures IsOutside(AfterDecls(keen, r, ds, i, layout))
    decreases |ds| - i
  {
    hide AfterDecl, WfDecl;
    if i < |ds| {
      AfterDeclKeeps(keen, r, ds[i], DeclAt(layout, i));
      DeclsEnd(keen, AfterDecl(keen, r, ds[i], DeclAt(layout, i)), ds, i + 1, layout);
    }
  }
}
