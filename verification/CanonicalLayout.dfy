/** What the layout that src/fmt.rs chooses looks like: where arrows stand and where blank lines are. */
module CanonicalLayout {
  import opened Tokens
  import opened Ast
  import opened Rendering
  import opened Comments
  import opened Formatting
  import opened FormatAppend
  import opened Formatter

  // ---- Lines of parts and arrows ----

  /** The parts of a chain on one line, each but the last with its padding and an arrow behind it. */
  function LineOf(parts: seq<string>, pads: seq<nat>): string
    requires |parts| == |pads| + 1
  {
    if pads == [] then parts[0] else parts[0] + Spaces(pads[0]) + " -> " + LineOf(parts[1..], pads[1..])
  }

  /** How many characters stand before arrow `j`. */
  function ArrowColumn(parts: seq<string>, pads: seq<nat>, j: nat): nat
    requires |parts| == |pads| + 1 && j < |pads|
  {
    |parts[0]| + pads[0] + if j == 0 then 1 else 4 + ArrowColumn(parts[1..], pads[1..], j - 1)
  }

  lemma {:induction false} ArrowStands(parts: seq<string>, pads: seq<nat>, j: nat)
    requires |parts| == |pads| + 1 && j < |pads|
    ensures
      var column := ArrowColumn(parts, pads, j);
      column + 2 <= |LineOf(parts, pads)| && LineOf(parts, pads)[column..column + 2] == "->"
  {
    var front := parts[0] + Spaces(pads[0]) + " -> ";
    var rest := LineOf(parts[1..], pads[1..]);
    assert LineOf(parts, pads) == front + rest;
    if j == 0 {
      var column := |parts[0]| + pads[0] + 1;
      assert front[column] == '-' && front[column + 1] == '>';
    } else {
      ArrowStands(parts[1..], pads[1..], j - 1);
      var column := ArrowColumn(parts[1..], pads[1..], j - 1);
      assert (front + rest)[|front| + column..|front| + column + 2] == rest[column..column + 2];
    }
  }

  /** Two lines agree on arrow `j` and on those before it. */
  lemma {:induction false} ColumnsAgree(ps: seq<string>, pads: seq<nat>, qs: seq<string>, qads: seq<nat>, j: nat)
    requires |ps| == |pads| + 1 && |qs| == |qads| + 1 && j < |pads| && j < |qads|
    requires forall i :: 0 <= i <= j ==> |ps[i]| + pads[i] == |qs[i]| + qads[i]
    ensures ArrowColumn(ps, pads, j) == ArrowColumn(qs, qads, j)
  {
    if j > 0 {
      ColumnsAgree(ps[1..], pads[1..], qs[1..], qads[1..], j - 1);
    }
  }

  lemma {:induction false} AgreeingColumns(ps: seq<string>, pads: seq<nat>, qs: seq<string>, qads: seq<nat>, j: nat)
    requires |ps| == |pads| + 1 && |qs| == |qads| + 1 && j < |pads| && j < |qads|
    requires forall i :: 0 <= i <= j ==> ArrowColumn(ps, pads, i) == ArrowColumn(qs, qads, i)
    ensures |ps[j]| + pads[j] == |qs[j]| + qads[j]
  {
    assert ArrowColumn(ps, pads, 0) == ArrowColumn(qs, qads, 0);
    if j > 0 {
      forall i | 0 <= i <= j - 1
        ensures ArrowColumn(ps[1..], pads[1..], i) == ArrowColumn(qs[1..], qads[1..], i)
      {
        assert ArrowColumn(ps, pads, i + 1) == ArrowColumn(qs, qads, i + 1);
      }
      AgreeingColumns(ps[1..], pads[1..], qs[1..], qads[1..], j - 1);
    }
  }

  // ---- Groups of chains ----

  /** A padding for every arrow of a group of chains, given by their parts. */
  ghost predicate Fitting(rows: seq<seq<string>>, pads: seq<seq<nat>>)
  {
    |pads| == |rows| && forall i :: 0 <= i < |rows| ==> |rows[i]| == |pads[i]| + 1
  }

  /** Arrows with the same number stand below each other. */
  ghost predicate Aligned(rows: seq<seq<string>>, pads: seq<seq<nat>>)
    requires Fitting(rows, pads)
  {
    forall i, k, j: nat :: 0 <= i < |rows| && 0 <= k < |rows| && j < |pads[i]| && j < |pads[k]| ==>
      ArrowColumn(rows[i], pads[i], j) == ArrowColumn(rows[k], pads[k], j)
  }

  /** Some chain needs no padding before arrow `j`. */
  ghost predicate Reaches(pads: seq<seq<nat>>, j: nat)
  {
    exists k :: 0 <= k < |pads| && j < |pads[k]| && pads[k][j] == 0
  }

  /** No column is wider than its widest part. */
  ghost predicate Tight(pads: seq<seq<nat>>)
  {
    forall i, j: nat :: 0 <= i < |pads| && j < |pads[i]| ==> Reaches(pads, j)
  }

  ghost predicate WellAligned(rows: seq<seq<string>>, pads: seq<seq<nat>>)
  {
    Fitting(rows, pads) && Aligned(rows, pads) && Tight(pads)
  }

  /** Arrows below each other leave one width for each column. */
  lemma SameWidth(rows: seq<seq<string>>, pads: seq<seq<nat>>, i: nat, k: nat, j: nat)
    requires Fitting(rows, pads) && Aligned(rows, pads)
    requires i < |rows| && k < |rows| && j < |pads[i]| && j < |pads[k]|
    ensures |rows[i][j]| + pads[i][j] == |rows[k][j]| + pads[k][j]
  {
    AgreeingColumns(rows[i], pads[i], rows[k], pads[k], j);
  }

  lemma NoSmallerPadding(rows: seq<seq<string>>, p: seq<seq<nat>>, q: seq<seq<nat>>, i: nat, j: nat)
    requires Fitting(rows, p) && Aligned(rows, p) && WellAligned(rows, q)
    requires i < |rows| && j < |p[i]|
    ensures q[i][j] <= p[i][j]
  {
    assert Reaches(q, j);
    var k :| 0 <= k < |q| && j < |q[k]| && q[k][j] == 0;
    assert |rows[k]| == |p[k]| + 1;
    SameWidth(rows, p, i, k, j);
    SameWidth(rows, q, i, k, j);
  }

  /** There is only one way to align a group without columns that are too wide. */
  lemma AlignmentIsUnique(rows: seq<seq<string>>, p: seq<seq<nat>>, q: seq<seq<nat>>)
    requires WellAligned(rows, p) && WellAligned(rows, q)
    ensures p == q
  {
    forall i: nat | i < |rows|
      ensures p[i] == q[i]
    {
      assert |rows[i]| == |p[i]| + 1;
      forall j: nat | j < |p[i]|
        ensures p[i][j] == q[i][j]
      {
        NoSmallerPadding(rows, p, q, i, j);
        NoSmallerPadding(rows, q, p, i, j);
      }
    }
  }

  /** The lines of a group: every chain indented, with its comment behind it. */
  function LinesOf(rows: seq<Row>, pads: seq<seq<nat>>): string
    requires |rows| == |pads|
    requires forall i :: 0 <= i < |rows| ==> |rows[i].chain.stages| == |pads[i]|
  {
    if rows == [] then ""
    else
      var line := LineOf(PartTexts(rows[0].chain), pads[0]) + EndOf(rows[0].trailing);
      INDENT + line + LinesOf(rows[1..], pads[1..])
  }

  /** The end of a line, with the comment behind its code. */
  function EndOf(trailing: Option<string>): string
  {
    if trailing.None? then "\n" else "  " + trailing.value + "\n"
  }

  function AllParts(rows: seq<Row>): (r: seq<seq<string>>)
    ensures |r| == |rows| && forall i :: 0 <= i < |rows| ==> r[i] == PartTexts(rows[i].chain)
  {
    seq(|rows|, i requires 0 <= i < |rows| => PartTexts(rows[i].chain))
  }

  /** The text is that of the group with its arrows below each other and no column too wide. */
  ghost predicate IsAlignedText(rows: seq<Row>, text: string)
  {
    exists pads :: WellAligned(AllParts(rows), pads) && text == LinesOf(rows, pads)
  }

  // ---- The paddings of the program ----

  /** The padding behind part `j` of a chain. */
  function Padding(c: Chain, group: seq<Row>, j: nat): nat
  {
    if ColumnWidth(group, j) > PartWidth(c, j) then ColumnWidth(group, j) - PartWidth(c, j) else 0
  }

  function Paddings(c: Chain, group: seq<Row>): (r: seq<nat>)
    ensures |r| == |c.stages| && forall j :: 0 <= j < |r| ==> r[j] == Padding(c, group, j)
  {
    seq(|c.stages|, j requires 0 <= j < |c.stages| => Padding(c, group, j))
  }

  function AllPaddings(rows: seq<Row>, group: seq<Row>): (r: seq<seq<nat>>)
    ensures |r| == |rows| && forall i :: 0 <= i < |rows| ==> r[i] == Paddings(rows[i].chain, group)
  {
    seq(|rows|, i requires 0 <= i < |rows| => Paddings(rows[i].chain, group))
  }

  lemma {:induction false} WidthIsWidest(group: seq<Row>, j: nat)
    ensures forall i :: 0 <= i < |group| ==> PartWidth(group[i].chain, j) <= ColumnWidth(group, j)
    ensures forall i :: 0 <= i < |group| && j < |group[i].chain.stages| ==>
      exists k :: 0 <= k < |group| && j < |group[k].chain.stages| && PartWidth(group[k].chain, j) == ColumnWidth(group, j)
  {
    hide FmtPart, Width;
    if group != [] {
      WidthIsWidest(group[1..], j);
      var c, rest := group[0].chain, ColumnWidth(group[1..], j);
      if j < |c.stages| && PartWidth(c, j) > rest {
        assert PartWidth(group[0].chain, j) == ColumnWidth(group, j);
      } else if i :| 1 <= i < |group| && j < |group[i].chain.stages| {
        assert group[i] == group[1..][i - 1];
        var k :| 0 <= k < |group[1..]| && j < |group[1..][k].chain.stages| && PartWidth(group[1..][k].chain, j) == rest;
        assert group[k + 1] == group[1..][k];
      } else {
        NoColumn(group[1..], j);
      }
    }
  }

  lemma {:induction false} NoColumn(group: seq<Row>, j: nat)
    requires forall i :: 0 <= i < |group| ==> j >= |group[i].chain.stages|
    ensures ColumnWidth(group, j) == 0
  {
    if group != [] { NoColumn(group[1..], j); }
  }

  lemma PaddedWidth(group: seq<Row>, i: nat, j: nat)
    requires i < |group| && j < |group[i].chain.stages|
    ensures |PartTexts(group[i].chain)[j]| + Padding(group[i].chain, group, j) == ColumnWidth(group, j)
  {
    WidthIsWidest(group, j);
    hide FmtPart, ColumnWidth;
  }

  lemma PaddingsAlign(group: seq<Row>)
    ensures WellAligned(AllParts(group), AllPaddings(group, group))
  {
    hide PartTexts, ColumnWidth, PartWidth, Padding;
    var rows, pads := AllParts(group), AllPaddings(group, group);
    forall i: nat, k: nat, j: nat | i < |rows| && k < |rows| && j < |pads[i]| && j < |pads[k]|
      ensures ArrowColumn(rows[i], pads[i], j) == ArrowColumn(rows[k], pads[k], j)
    {
      forall n: nat | n <= j
        ensures |rows[i][n]| + pads[i][n] == |rows[k][n]| + pads[k][n]
      {
        PaddedWidth(group, i, n);
        PaddedWidth(group, k, n);
      }
      ColumnsAgree(rows[i], pads[i], rows[k], pads[k], j);
    }
    forall i: nat, j: nat | i < |pads| && j < |pads[i]|
      ensures Reaches(pads, j)
    {
      WidthIsWidest(group, j);
      var k :| 0 <= k < |group| && j < |group[k].chain.stages| && PartWidth(group[k].chain, j) == ColumnWidth(group, j);
      NoPadding(group, k, j);
    }
  }

  lemma NoPadding(group: seq<Row>, k: nat, j: nat)
    requires k < |group| && PartWidth(group[k].chain, j) == ColumnWidth(group, j)
    ensures Padding(group[k].chain, group, j) == 0
  {}

  lemma {:induction false} AlignedText(c: Chain, j: nat, group: seq<Row>)
    requires j <= |c.stages|
    ensures Render(FmtAligned(c, j, group, End)) == LineOf(PartTexts(c)[j..], Paddings(c, group)[j..])
    decreases |c.stages| - j
  {
    hide FmtAligned, FmtPart, Render, ColumnWidth;
    if j == |c.stages| {
      AlignedLast(c, group);
    } else {
      AlignedStep(c, j, group);
      AlignedText(c, j + 1, group);
      assert PartTexts(c)[j..][1..] == PartTexts(c)[j + 1..];
      assert Paddings(c, group)[j..][1..] == Paddings(c, group)[j + 1..];
    }
  }

  lemma RowText(row: Row, group: seq<Row>, k: Text)
    ensures
      Render(W(INDENT, FmtAligned(row.chain, 0, group, LineEnd(row.trailing, k))))
      == INDENT + (LineOf(PartTexts(row.chain), Paddings(row.chain, group)) + EndOf(row.trailing)) + Render(k)
  {
    hide FmtAligned, PartTexts, LineOf, Render, Append, LineEnd;
    var c := row.chain;
    var line := FmtAligned(c, 0, group, End);
    AlignedAppend(c, 0, group, End, LineEnd(row.trailing, k));
    EndFirst(LineEnd(row.trailing, k));
    GapFirst(INDENT, FmtAligned(c, 0, group, LineEnd(row.trailing, k)));
    EndWritten(INDENT, line, row.trailing, k);
    AlignedText(c, 0, group);
    assert PartTexts(c)[0..] == PartTexts(c) && Paddings(c, group)[0..] == Paddings(c, group);
  }

  lemma EndFirst(k: Text)
    ensures Append(End, k) == k
  {}

  lemma GapFirst(gap: string, k: Text)
    ensures Render(W(gap, k)) == gap + Render(k)
  {}

  lemma EndWritten(before: string, t: Text, trailing: Option<string>, k: Text)
    ensures before + Render(Append(t, LineEnd(trailing, k))) == before + (Render(t) + EndOf(trailing)) + Render(k)
  {
    match trailing {
      case None => LineWritten(before, t, k);
      case Some(comment) =>
        TrailingWritten(before, t, comment, k);
        Regrouped(Render(t), "  ", comment);
    }
    hide Render, Append;
  }

  lemma Regrouped(a: string, b: string, c: string)
    ensures a + b + c + "\n" == a + (b + c + "\n")
  {}

  lemma {:induction false} GroupText(rows: seq<Row>, group: seq<Row>)
    ensures Render(FmtGroup(rows, group, End)) == LinesOf(rows, AllPaddings(rows, group))
  {
    hide FmtAligned, PartTexts, LineOf, Padding;
    if rows != [] {
      GroupText(rows[1..], group);
      RowText(rows[0], group, FmtGroup(rows[1..], group, End));
      assert AllPaddings(rows, group)[1..] == AllPaddings(rows[1..], group);
    }
  }

  /** A group is written with its arrows below each other and no column too wide, and no other text is so. */
  lemma GroupIsAlignedIff(group: seq<Row>, text: string)
    ensures IsAlignedText(group, text) <==> text == Render(FmtGroup(group, group, End))
  {
    hide FmtGroup, PartTexts, LineOf, Padding, LinesOf, WellAligned;
    PaddingsAlign(group);
    GroupText(group, group);
    forall pads | WellAligned(AllParts(group), pads)
      ensures pads == AllPaddings(group, group)
    {
      AlignmentIsUnique(AllParts(group), pads, AllPaddings(group, group));
    }
  }

  // ---- The body of a callable ----

  predicate Inline(chains: seq<Chain>, i: nat) { i < |chains| && !IsMultiline(chains[i]) }

  /** No group goes on from before chain `i`. */
  predicate Starts(chains: seq<Chain>, comments: seq<ChainComments>, i: nat)
  {
    i == 0 || !Inline(chains, i - 1) || Breaks(ChainAt(comments, i))
  }

  /** No group goes on with chain `i`. */
  predicate Stops(chains: seq<Chain>, comments: seq<ChainComments>, i: nat)
  {
    !Inline(chains, i) || Breaks(ChainAt(comments, i))
  }

  /** Chains from `s` to before `e` that are written on one line each, nothing between them. */
  ghost predicate Together(chains: seq<Chain>, comments: seq<ChainComments>, s: nat, e: nat)
  {
    && s <= e <= |chains|
    && (forall i: nat :: s <= i < e ==> Inline(chains, i))
    && (forall i: nat :: s < i < e ==> !Breaks(ChainAt(comments, i)))
  }

  /** As many of them as there are. */
  ghost predicate IsGroup(chains: seq<Chain>, comments: seq<ChainComments>, s: nat, e: nat)
  {
    s < e && Together(chains, comments, s, e) && Starts(chains, comments, s) && Stops(chains, comments, e)
  }

  function Rows(chains: seq<Chain>, comments: seq<ChainComments>, s: nat, e: nat): (r: seq<Row>)
    requires s <= e <= |chains|
    ensures |r| == e - s
    ensures forall i :: 0 <= i < |r| ==> r[i] == Row(chains[s + i], ChainAt(comments, s + i).trailing)
  {
    seq(e - s, i requires 0 <= i < e - s => Row(chains[s + i], ChainAt(comments, s + i).trailing))
  }

  /** A padding for every arrow of every chain on one line. */
  ghost predicate PadsFit(chains: seq<Chain>, pads: seq<seq<nat>>)
  {
    && |pads| == |chains|
    && forall i: nat :: i < |chains| ==> |pads[i]| == if Inline(chains, i) then |chains[i].stages| else 0
  }

  /** Every group has its arrows below each other and no column too wide. */
  ghost predicate BodyAligned(chains: seq<Chain>, comments: seq<ChainComments>, pads: seq<seq<nat>>)
  {
    && PadsFit(chains, pads)
    && forall s: nat, e: nat :: IsGroup(chains, comments, s, e) ==>
         WellAligned(AllParts(Rows(chains, comments, s, e)), pads[s..e])
  }

  /** What stands between chain `i` and the text before it: a blank line if there was one, and comments. */
  function GapBefore(before: string, comments: seq<ChainComments>, i: nat): string
  {
    var c := ChainAt(comments, i);
    (if c.blank && i > 0 && !EndsWithBlankLine(before) then "\n" else "") + CommentLines(INDENT, c.leading)
  }

  ghost function ChainText(chains: seq<Chain>, comments: seq<ChainComments>, pads: seq<seq<nat>>, i: nat): string
    requires PadsFit(chains, pads) && i < |chains|
  {
    var trailing := ChainAt(comments, i).trailing;
    if Inline(chains, i) then INDENT + (LineOf(PartTexts(chains[i]), pads[i]) + EndOf(trailing))
    else Render(FmtMultilineChain(chains[i], trailing, End))
  }

  /** The text before chain `i` with the chains from `i` on behind it. */
  ghost function BodyFrom(
    before: string, chains: seq<Chain>, comments: seq<ChainComments>, pads: seq<seq<nat>>, i: nat): string
    requires PadsFit(chains, pads) && i <= |chains|
    decreases |chains| - i
  {
    if i == |chains| then before
    else
      var start := before + GapBefore(before, comments, i);
      BodyFrom(start + ChainText(chains, comments, pads, i), chains, comments, pads, i + 1)
  }

  ghost predicate IsBodyText(before: string, chains: seq<Chain>, comments: seq<ChainComments>, text: string)
  {
    exists pads :: BodyAligned(chains, comments, pads) && text == BodyFrom(before, chains, comments, pads, 0)
  }

  // ---- There are such paddings ----

  function StartOf(chains: seq<Chain>, comments: seq<ChainComments>, i: nat): (s: nat)
    ensures s <= i
  {
    if Starts(chains, comments, i) then i else StartOf(chains, comments, i - 1)
  }

  function StopOf(chains: seq<Chain>, comments: seq<ChainComments>, i: nat): (e: nat)
    requires i <= |chains|
    ensures i <= e <= |chains|
    decreases |chains| - i
  {
    if Stops(chains, comments, i) then i else StopOf(chains, comments, i + 1)
  }

  lemma {:induction false} InGroup(chains: seq<Chain>, comments: seq<ChainComments>, s: nat, e: nat, i: nat)
    requires IsGroup(chains, comments, s, e) && s <= i < e
    ensures StartOf(chains, comments, i) == s && StopOf(chains, comments, i + 1) == e
  {
    StartIs(chains, comments, s, e, i);
    StopIs(chains, comments, s, e, i + 1);
  }

  lemma {:induction false} StartIs(chains: seq<Chain>, comments: seq<ChainComments>, s: nat, e: nat, i: nat)
    requires IsGroup(chains, comments, s, e) && s <= i < e
    ensures StartOf(chains, comments, i) == s
    decreases i
  {
    hide IsMultiline;
    if i > s {
      assert Inline(chains, i - 1);
      StartIs(chains, comments, s, e, i - 1);
    }
  }

  lemma {:induction false} StopIs(chains: seq<Chain>, comments: seq<ChainComments>, s: nat, e: nat, i: nat)
    requires IsGroup(chains, comments, s, e) && s < i <= e
    ensures StopOf(chains, comments, i) == e
    decreases e - i
  {
    hide IsMultiline;
    if i < e {
      assert Inline(chains, i);
      StopIs(chains, comments, s, e, i + 1);
    }
  }

  function PadsAt(chains: seq<Chain>, comments: seq<ChainComments>, i: nat): (r: seq<nat>)
    requires i < |chains|
    ensures |r| == if Inline(chains, i) then |chains[i].stages| else 0
  {
    if Inline(chains, i) then
      Paddings(chains[i], Rows(chains, comments, StartOf(chains, comments, i), StopOf(chains, comments, i + 1)))
    else []
  }

  lemma PaddingsExist(chains: seq<Chain>, comments: seq<ChainComments>)
    ensures exists pads :: BodyAligned(chains, comments, pads)
  {
    hide PartTexts, WellAligned, IsMultiline, Padding;
    var pads := seq(|chains|, i requires 0 <= i < |chains| => PadsAt(chains, comments, i));
    forall s: nat, e: nat | IsGroup(chains, comments, s, e)
      ensures WellAligned(AllParts(Rows(chains, comments, s, e)), pads[s..e])
    {
      var rows := Rows(chains, comments, s, e);
      forall i: nat | s <= i < e
        ensures pads[i] == Paddings(chains[i], rows)
      {
        assert Inline(chains, i);
        InGroup(chains, comments, s, e, i);
      }
      assert pads[s..e] == AllPaddings(rows, rows);
      PaddingsAlign(rows);
    }
    assert BodyAligned(chains, comments, pads);
  }

  // ---- They are those of the program ----

  /** The chains from `s` to before `e` behind a text. */
  ghost function Run(
    text: string, chains: seq<Chain>, comments: seq<ChainComments>, pads: seq<seq<nat>>, s: nat, e: nat): string
    requires PadsFit(chains, pads) && Together(chains, comments, s, e)
  {
    text + LinesOf(Rows(chains, comments, s, e), pads[s..e])
  }

  lemma {:induction false} LinesSnoc(rows: seq<Row>, pads: seq<seq<nat>>, row: Row, pad: seq<nat>)
    requires |rows| == |pads| && |row.chain.stages| == |pad|
    requires forall i :: 0 <= i < |rows| ==> |rows[i].chain.stages| == |pads[i]|
    ensures
      var line := LineOf(PartTexts(row.chain), pad) + EndOf(row.trailing);
      LinesOf(rows + [row], pads + [pad]) == LinesOf(rows, pads) + (INDENT + line)
  {
    hide PartTexts, LineOf;
    if rows == [] {
      assert rows + [row] == [row] && pads + [pad] == [pad];
      assert [row][1..] == [] && [pad][1..] == [];
    } else {
      assert (rows + [row])[1..] == rows[1..] + [row] && (pads + [pad])[1..] == pads[1..] + [pad];
      LinesSnoc(rows[1..], pads[1..], row, pad);
    }
  }

  lemma RunOn(text: string, chains: seq<Chain>, comments: seq<ChainComments>, pads: seq<seq<nat>>, s: nat, i: nat)
    requires PadsFit(chains, pads) && Together(chains, comments, s, i) && Inline(chains, i)
    requires s == i || !Breaks(ChainAt(comments, i))
    ensures Together(chains, comments, s, i + 1)
    ensures Run(text, chains, comments, pads, s, i + 1)
         == Run(text, chains, comments, pads, s, i) + ChainText(chains, comments, pads, i)
  {
    hide PartTexts, LineOf, LinesOf, IsMultiline, EndOf;
    assert Rows(chains, comments, s, i + 1)
        == Rows(chains, comments, s, i) + [Row(chains[i], ChainAt(comments, i).trailing)];
    assert pads[s..i + 1] == pads[s..i] + [pads[i]];
    LinesSnoc(Rows(chains, comments, s, i), pads[s..i], Row(chains[i], ChainAt(comments, i).trailing), pads[i]);
    Joined(text, LinesOf(Rows(chains, comments, s, i), pads[s..i]), ChainText(chains, comments, pads, i));
  }

  lemma Joined(a: string, b: string, c: string)
    ensures a + (b + c) == a + b + c
  {}

  lemma FlushText(acc: Text, chains: seq<Chain>, comments: seq<ChainComments>, pads: seq<seq<nat>>, s: nat, i: nat)
    requires BodyAligned(chains, comments, pads) && Together(chains, comments, s, i)
    requires s == i || (Starts(chains, comments, s) && Stops(chains, comments, i))
    ensures Render(Flush(acc, Rows(chains, comments, s, i))) == Run(Render(acc), chains, comments, pads, s, i)
  {
    hide WellAligned, LinesOf, IsMultiline, Render, Append, FmtGroup;
    var rows := Rows(chains, comments, s, i);
    RenderAppend(acc, FmtGroup(rows, rows, End));
    if s == i {
      NoRows(rows);
    } else {
      assert IsGroup(chains, comments, s, i);
      assert WellAligned(AllParts(rows), pads[s..i]);
      assert IsAlignedText(rows, LinesOf(rows, pads[s..i]));
      GroupIsAlignedIff(rows, LinesOf(rows, pads[s..i]));
    }
  }

  lemma NoRows(rows: seq<Row>)
    requires rows == []
    ensures LinesOf(rows, []) == "" && Render(FmtGroup(rows, rows, End)) == ""
  {}

  lemma GapText(acc: Text, i: nat, comments: seq<ChainComments>)
    ensures
      var c := ChainAt(comments, i);
      var gap := Append(if c.blank && i > 0 then BlankLine(acc) else acc, Remarks(INDENT, c.leading));
      Render(gap) == Render(acc) + GapBefore(Render(acc), comments, i)
  {
    hide Render, Append, CommentLines, Remarks;
    var c := ChainAt(comments, i);
    var blank := if c.blank && i > 0 then BlankLine(acc) else acc;
    RenderAppend(acc, NewLine(End));
    NewLineText();
    RenderAppend(blank, Remarks(INDENT, c.leading));
    RemarksText(INDENT, c.leading);
    Joined(Render(acc), if blank == acc then "" else "\n", CommentLines(INDENT, c.leading));
  }

  lemma NewLineText()
    ensures Render(NewLine(End)) == "\n"
  {}

  lemma RemarksText(indent: string, cs: seq<string>)
    ensures Render(Remarks(indent, cs)) == CommentLines(indent, cs)
  {
    if cs != [] {
      assert Render(W(CommentLines(indent, cs), End)) == CommentLines(indent, cs) + Render(End);
    }
  }

  /** Without a break there is nothing between two chains. */
  lemma NoGap(before: string, i: nat, comments: seq<ChainComments>)
    requires !Breaks(ChainAt(comments, i))
    ensures before + GapBefore(before, comments, i) == before
  {}

  /** One step of format_callable, after the comments of chain `i`. */
  lemma ChainStep(acc: Text, group: seq<Row>, chains: seq<Chain>, i: nat, comments: seq<ChainComments>)
    requires i < |chains|
    ensures
      var c := ChainAt(comments, i);
      var acc1 := if Breaks(c) then Break(acc, group, i, c) else acc;
      var group1 := if Breaks(c) then [] else group;
      FmtBody(acc, group, chains, i, comments) ==
        if Inline(chains, i) then FmtBody(acc1, group1 + [Row(chains[i], c.trailing)], chains, i + 1, comments)
        else
          FmtBody(Append(Flush(acc1, group1), FmtMultilineChain(chains[i], c.trailing, End)), [], chains, i + 1, comments)
  {}

  lemma {:induction false} BodyText(
    acc: Text, chains: seq<Chain>, comments: seq<ChainComments>, pads: seq<seq<nat>>, s: nat, i: nat)
    requires BodyAligned(chains, comments, pads) && Together(chains, comments, s, i) && Starts(chains, comments, s)
    ensures Render(FmtBody(acc, Rows(chains, comments, s, i), chains, i, comments))
         == BodyFrom(Run(Render(acc), chains, comments, pads, s, i), chains, comments, pads, i)
    decreases |chains| - i, 1
  {
    hide FmtBody, Render, Append, Flush, IsMultiline, FmtMultilineChain, WellAligned, LinesOf, ChainText, Run, GapBefore,
      Breaks, IsGroup;
    var rows, c, text := Rows(chains, comments, s, i), ChainAt(comments, i), Run(Render(acc), chains, comments, pads, s, i);
    if i == |chains| {
      LastText(acc, chains, comments, pads, s);
    } else {
      ChainStep(acc, rows, chains, i, comments);
      if Breaks(c) {
        BreakText(acc, chains, comments, pads, s, i);
        ChainWritten(Break(acc, rows, i, c), chains, comments, pads, i, i);
      } else {
        NoGap(text, i, comments);
        ChainWritten(acc, chains, comments, pads, s, i);
      }
    }
  }

  /** Chain `i` is written, or it joins the group. */
  lemma {:induction false} ChainWritten(
    acc: Text, chains: seq<Chain>, comments: seq<ChainComments>, pads: seq<seq<nat>>, s: nat, i: nat)
    requires BodyAligned(chains, comments, pads) && Together(chains, comments, s, i) && Starts(chains, comments, s)
    requires i < |chains| && (s == i || !Breaks(ChainAt(comments, i)))
    ensures
      var rows, trailing := Rows(chains, comments, s, i), ChainAt(comments, i).trailing;
      Render(
        if Inline(chains, i) then FmtBody(acc, rows + [Row(chains[i], trailing)], chains, i + 1, comments)
        else FmtBody(Append(Flush(acc, rows), FmtMultilineChain(chains[i], trailing, End)), [], chains, i + 1, comments))
      == BodyFrom(
           Run(Render(acc), chains, comments, pads, s, i) + ChainText(chains, comments, pads, i),
           chains, comments, pads, i + 1)
    decreases |chains| - i, 0
  {
    hide FmtBody, BodyFrom, Render, Append, Flush, IsMultiline, FmtMultilineChain, WellAligned, LinesOf, Breaks, IsGroup,
      ChainText, Run, Starts;
    if Inline(chains, i) {
      RunOn(Render(acc), chains, comments, pads, s, i);
      RowsOn(chains, comments, s, i);
      BodyText(acc, chains, comments, pads, s, i + 1);
    } else {
      var rows, t := Rows(chains, comments, s, i), FmtMultilineChain(chains[i], ChainAt(comments, i).trailing, End);
      var next := Append(Flush(acc, rows), t);
      AfterMultiline(acc, chains, comments, pads, s, i);
      BodyText(next, chains, comments, pads, i + 1, i + 1);
    }
  }

  lemma RowsOn(chains: seq<Chain>, comments: seq<ChainComments>, s: nat, i: nat)
    requires s <= i < |chains|
    ensures Rows(chains, comments, s, i + 1) == Rows(chains, comments, s, i) + [Row(chains[i], ChainAt(comments, i).trailing)]
  {}

  lemma AfterMultiline(acc: Text, chains: seq<Chain>, comments: seq<ChainComments>, pads: seq<seq<nat>>, s: nat, i: nat)
    requires BodyAligned(chains, comments, pads) && Together(chains, comments, s, i) && Starts(chains, comments, s)
    requires i < |chains| && !Inline(chains, i)
    ensures
      var t := FmtMultilineChain(chains[i], ChainAt(comments, i).trailing, End);
      var next := Append(Flush(acc, Rows(chains, comments, s, i)), t);
      && Together(chains, comments, i + 1, i + 1) && Starts(chains, comments, i + 1)
      && Rows(chains, comments, i + 1, i + 1) == []
      && Run(Render(next), chains, comments, pads, i + 1, i + 1)
         == Run(Render(acc), chains, comments, pads, s, i) + ChainText(chains, comments, pads, i)
  {
    hide Render, Append, Flush, IsMultiline, FmtMultilineChain, WellAligned, Run, IsGroup;
    var flushed, t := Flush(acc, Rows(chains, comments, s, i)),
      FmtMultilineChain(chains[i], ChainAt(comments, i).trailing, End);
    FlushText(acc, chains, comments, pads, s, i);
    RenderAppend(flushed, t);
    NoRun(Append(flushed, t), chains, comments, pads, i + 1);
  }

  lemma NoRun(acc: Text, chains: seq<Chain>, comments: seq<ChainComments>, pads: seq<seq<nat>>, i: nat)
    requires PadsFit(chains, pads) && i <= |chains|
    ensures Together(chains, comments, i, i) && Rows(chains, comments, i, i) == []
    ensures Run(Render(acc), chains, comments, pads, i, i) == Render(acc)
  {}

  lemma BreakText(acc: Text, chains: seq<Chain>, comments: seq<ChainComments>, pads: seq<seq<nat>>, s: nat, i: nat)
    requires BodyAligned(chains, comments, pads) && Together(chains, comments, s, i) && i < |chains|
    requires Starts(chains, comments, s) && Breaks(ChainAt(comments, i))
    ensures
      var text := Run(Render(acc), chains, comments, pads, s, i);
      var acc1 := Break(acc, Rows(chains, comments, s, i), i, ChainAt(comments, i));
      && Together(chains, comments, i, i) && Rows(chains, comments, i, i) == []
      && Run(Render(acc1), chains, comments, pads, i, i) == text + GapBefore(text, comments, i)
  {
    hide Render, Append, Flush, Run, BlankLine, Remarks, WellAligned, GapBefore, IsMultiline, IsGroup;
    FlushText(acc, chains, comments, pads, s, i);
    GapText(Flush(acc, Rows(chains, comments, s, i)), i, comments);
    NoRun(Break(acc, Rows(chains, comments, s, i), i, ChainAt(comments, i)), chains, comments, pads, i);
  }

  lemma LastText(acc: Text, chains: seq<Chain>, comments: seq<ChainComments>, pads: seq<seq<nat>>, s: nat)
    requires BodyAligned(chains, comments, pads) && Together(chains, comments, s, |chains|)
    requires Starts(chains, comments, s)
    ensures Render(FmtBody(acc, Rows(chains, comments, s, |chains|), chains, |chains|, comments))
         == BodyFrom(Run(Render(acc), chains, comments, pads, s, |chains|), chains, comments, pads, |chains|)
  {
    FlushText(acc, chains, comments, pads, s, |chains|);
  }

  /**
   * The chains of a body are written one after the other, those that follow each other on one line each with their
   * arrows below each other and no column too wide; and no other text is so.
   */
  lemma BodyIsLaidOutIff(acc: Text, chains: seq<Chain>, comments: seq<ChainComments>, text: string)
    ensures IsBodyText(Render(acc), chains, comments, text) <==> text == Render(FmtBody(acc, [], chains, 0, comments))
  {
    hide BodyAligned, BodyFrom, FmtBody, Render, Together, Starts, Rows, Run;
    PaddingsExist(chains, comments);
    forall pads | BodyAligned(chains, comments, pads)
      ensures PadsFit(chains, pads)
           && BodyFrom(Render(acc), chains, comments, pads, 0) == Render(FmtBody(acc, [], chains, 0, comments))
    {
      Fits(chains, comments, pads);
      NoRun(acc, chains, comments, pads, 0);
      BodyText(acc, chains, comments, pads, 0, 0);
    }
  }

  lemma Fits(chains: seq<Chain>, comments: seq<ChainComments>, pads: seq<seq<nat>>)
    requires BodyAligned(chains, comments, pads)
    ensures PadsFit(chains, pads) && Starts(chains, comments, 0)
  {}
}
