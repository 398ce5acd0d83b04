/** Which comments of a source are skipped where src/fmt.rs writes them: those with no code behind them on their lines. */
module SkippedComments {
  import opened Tokens
  import opened Ast
  import Lexer
  import opened Rendering
  import opened Comments
  import opened Formatting
  import opened FormatSource
  import opened CommentLayout
  import opened KeptComments
  import opened CommentTokens

  /** What is left of the line where a block comment ends is skipped as well. */
  predicate EndsAlone(body: string)
  {
    var after := Lexer.AfterBlock(body);
    after.Scanned? && Skips(after.rest + "\n")
  }

  /**
   * No code stands behind a block comment on a line that starts with it or inside it; `inBlock` says whether the
   * first line is inside one.
   */
  predicate BlocksStandAlone(inBlock: bool, s: string)
    decreases |s|
  {
    if s == [] then true
    else
      var line := s[..LineLength(s)];
      var first := TrimStart(line);
      if inBlock then
        && (HasBlockEnd(line) ==> EndsAlone(TrimStart(TrimEnd(line))))
        && BlocksStandAlone(!HasBlockEnd(line), AfterLine(s))
      else if StartsWith(first, "/*") then
        && (HasBlockEnd(first) ==> EndsAlone(TrimEnd(first[2..])))
        && BlocksStandAlone(!HasBlockEnd(first), AfterLine(s))
      else BlocksStandAlone(false, AfterLine(s))
  }

  /** Without a slash there is no block comment. */
  lemma {:induction false} NoSlashNoBlock(s: string)
    requires '/' !in s
    ensures BlocksStandAlone(false, s)
    decreases |s|
  {
    if s != [] {
      var line := s[..LineLength(s)];
      var w := TrimStartSplits(line);
      var first := TrimStart(line);
      assert !StartsWith(first, "/*") by { SlashFirst(first, line, |w|); }
      hide TrimStart, StartsWith, HasBlockEnd, EndsAlone;
      NoSlashNoBlock(AfterLine(s));
    }
  }

  lemma SlashFirst(first: string, line: string, n: nat)
    requires n <= |line| && line[n..] == first
    ensures StartsWith(first, "/*") ==> '/' in line
  {
    if StartsWith(first, "/*") { assert first[..2][0] == '/' && line[n] == first[0]; }
  }

  // ---- Texts that are skipped ----

  lemma {:induction false} SkipsJoin(a: string, b: string)
    requires Skips(a) && Skips(b)
    ensures Skips(a + b)
    decreases |a|
  {
    if a == [] {
      assert a + b == b;
    } else {
      assert (a + b)[1..] == a[1..] + b;
      if IsBlank(a[0]) {
        SkipsJoin(a[1..], b);
      } else if a[0] == '#' {
        AfterLineOf(a[1..], b);
        SkipsJoin(Lexer.AfterLine(a[1..]), b);
      } else {
        assert (a + b)[2..] == a[2..] + b;
        AfterBlockOf(a[2..], b);
        SkipsJoin(Lexer.AfterBlock(a[2..]).rest, b);
      }
    }
  }

  lemma {:induction false} LinesJoin(indent: string, a: seq<string>, b: seq<string>)
    ensures CommentLines(indent, a + b) == CommentLines(indent, a) + CommentLines(indent, b)
  {
    if a == [] {
      assert a + b == b;
    } else {
      assert (a + b)[1..] == a[1..] + b;
      LinesJoin(indent, a[1..], b);
    }
  }

  /** Comments that are skipped at both indentations. */
  predicate AreSkipped(cs: seq<string>) { RemarksSkip("", cs) && RemarksSkip(INDENT, cs) }

  lemma SkippedJoin(a: seq<string>, b: seq<string>)
    requires AreSkipped(a) && AreSkipped(b)
    ensures AreSkipped(a + b)
  {
    LinesJoin("", a, b);
    LinesJoin(INDENT, a, b);
    SkipsJoin(CommentLines("", a), CommentLines("", b));
    SkipsJoin(CommentLines(INDENT, a), CommentLines(INDENT, b));
  }

  lemma NothingSkipped()
    ensures AreSkipped([])
  {
    assert Skips("");
  }

  lemma {:induction false} LineEnded(c: string, s: string)
    requires '\n' !in c
    ensures Lexer.AfterLine(c + "\n" + s) == s && '\n' in c + "\n" + s
  {
    var t := c + "\n" + s;
    if c == [] {
      assert t[0] == '\n' && t[1..] == s;
    } else {
      assert t[1..] == c[1..] + "\n" + s;
      LineEnded(c[1..], s);
    }
  }

  lemma HashSkips(indent: string, c: string)
    requires IsHash(c) && AllBlank(indent)
    ensures RemarksSkip(indent, [c])
  {
    assert c == "#" + c[1..];
    LineEnded(c[1..], "");
    assert [c][1..] == [];
    var s := c + "\n";
    assert CommentLines(indent, [c]) == indent + s;
    assert s[1..] == c[1..] + "\n" + "";
    assert Skips(s);
    BlankSkips(indent);
    SkipsJoin(indent, s);
  }

  lemma HashIsSkipped(c: string)
    requires IsHash(c)
    ensures AreSkipped([c])
  {
    HashSkips("", c);
    HashSkips(INDENT, c);
  }

  // ---- Block comments ----

  lemma {:induction false} BlockEndIff(s: string)
    ensures HasBlockEnd(s) <==> Lexer.AfterBlock(s).Scanned?
  {
    if |s| >= 2 && !(s[0] == '*' && s[1] == '/') {
      BlockEndIff(s[1..]);
      if HasBlockEnd(s) {
        var i :| 0 <= i < |s| - 1 && s[i] == '*' && s[i + 1] == '/';
        assert s[1..][i - 1] == '*' && s[1..][i] == '/';
      }
      if HasBlockEnd(s[1..]) {
        var i :| 0 <= i < |s[1..]| - 1 && s[1..][i] == '*' && s[1..][i + 1] == '/';
        assert s[i + 1] == '*' && s[i + 2] == '/';
      }
    }
  }

  /** The end is looked for behind lines without it. */
  lemma {:induction false} BlockGoesOn(w: string, s: string)
    requires EndsLine(w) && Lexer.AfterBlock(w).NoScan?
    ensures Lexer.AfterBlock(w + s) == Lexer.AfterBlock(s)
  {
    if w == [] {
      assert w + s == s;
    } else {
      assert (w + s)[1..] == w[1..] + s;
      if |w| > 1 { assert (w + s)[1] == w[1]; }
      BlockGoesOn(w[1..], s);
      if |w + s| < 2 { assert s == []; }
    }
  }

  lemma {:induction false} SpacesBefore(indent: string, s: string)
    requires AllBlank(indent)
    ensures Lexer.AfterBlock(indent + s) == Lexer.AfterBlock(s)
  {
    if indent == [] {
      assert indent + s == s;
    } else {
      assert (indent + s)[1..] == indent[1..] + s;
      SpacesBefore(indent[1..], s);
      if |indent + s| < 2 { assert s == []; }
    }
  }

  /** The lines of a block comment that has not ended. */
  ghost predicate IsHalf(indent: string, cs: seq<string>)
  {
    exists w: string :: CommentLines(indent, cs) == indent + "/*" + w && EndsLine(w) && Lexer.AfterBlock(w).NoScan?
  }

  ghost predicate AreHalf(cs: seq<string>) { IsHalf("", cs) && IsHalf(INDENT, cs) }

  lemma NoEndBehind(s: string)
    requires !HasBlockEnd(s)
    ensures Lexer.AfterBlock(s + "\n").NoScan?
  {
    var t := s + "\n";
    forall i | 0 <= i < |t| - 1 ensures !(t[i] == '*' && t[i + 1] == '/') {
      if i < |s| - 1 { assert t[i] == s[i] && t[i + 1] == s[i + 1]; }
    }
    BlockEndIff(t);
  }

  lemma OneRemark(indent: string, c: string)
    requires TrimStart(c) == c
    ensures CommentLines(indent, [c]) == indent + (c + "\n")
  {
    assert [c][1..] == [] && CommentLines(indent, []) == "";
    assert indent + c + "\n" + "" == indent + (c + "\n");
  }

  lemma BlockSkips(indent: string, body: string)
    requires AllBlank(indent) && EndsAlone(body)
    ensures RemarksSkip(indent, ["/*" + body])
  {
    StartsItself("/*" + body);
    OneRemark(indent, "/*" + body);
    var s := "/*" + body + "\n";
    assert s[2..] == body + "\n";
    AfterBlockOf(body, "\n");
    assert Skips(s);
    BlankSkips(indent);
    SkipsJoin(indent, s);
  }

  lemma BlockIsHalf(indent: string, body: string)
    requires !HasBlockEnd("/*" + body)
    ensures IsHalf(indent, ["/*" + body])
  {
    StartsItself("/*" + body);
    OneRemark(indent, "/*" + body);
    var w := body + "\n";
    forall i | 0 <= i < |body| - 1 ensures !(body[i] == '*' && body[i + 1] == '/') {
      assert ("/*" + body)[i + 2] == body[i] && ("/*" + body)[i + 3] == body[i + 1];
    }
    NoEndBehind(body);
    assert CommentLines(indent, ["/*" + body]) == indent + "/*" + w;
  }

  /** The first line of a block comment. */
  lemma BlockStarts(line: string)
    requires StartsWith(TrimStart(line), "/*")
    ensures
      var first := TrimStart(TrimEnd(line));
      && (HasBlockEnd(TrimStart(line)) && EndsAlone(TrimEnd(TrimStart(line)[2..])) ==> AreSkipped([first]))
      && (!HasBlockEnd(TrimStart(line)) ==> AreHalf([first]))
  {
    var code := TrimStart(line);
    assert code == "/*" + code[2..];
    TrimBoth(line, code[2..]);
    TrimEndBlock(code);
    hide *;
    BlockLine(TrimEnd(code[2..]));
  }

  lemma BlockLine(body: string)
    ensures HasBlockEnd("/*" + body) && EndsAlone(body) ==> AreSkipped(["/*" + body])
    ensures !HasBlockEnd("/*" + body) ==> AreHalf(["/*" + body])
  {
    hide EndsAlone, HasBlockEnd, RemarksSkip, IsHalf;
    if EndsAlone(body) {
      BlockSkips("", body);
      BlockSkips(INDENT, body);
    }
    if !HasBlockEnd("/*" + body) {
      BlockIsHalf("", body);
      BlockIsHalf(INDENT, body);
    }
  }

  lemma HalfLonger(indent: string, cs: seq<string>, c: string, w: string) returns (v: string)
    requires CommentLines(indent, cs) == indent + "/*" + w && EndsLine(w) && Lexer.AfterBlock(w).NoScan? && AllBlank(indent)
    ensures CommentLines(indent, cs + [c]) == indent + "/*" + v && EndsLine(v)
    ensures Lexer.AfterBlock(v) == Lexer.AfterBlock(TrimStart(c) + "\n")
  {
    LinesJoin(indent, cs, [c]);
    var line := TrimStart(c);
    TrimStartTwice(c);
    OneTrimmed(indent, c);
    var x := indent + (line + "\n");
    hide CommentLines, TrimStart;
    BlockGoesOn(w, x);
    SpacesBefore(indent, line + "\n");
    v := w + x;
    Joined(indent, "/*", w, x);
    hide *;
    EndsInLine(w, indent, line);
  }

  lemma OneTrimmed(indent: string, c: string)
    ensures CommentLines(indent, [c]) == indent + (TrimStart(c) + "\n")
  {
    assert [c][1..] == [] && CommentLines(indent, []) == "";
    Joined(indent, TrimStart(c), "\n", "");
    hide TrimStart;
    assert indent + TrimStart(c) + "\n" + "" == indent + TrimStart(c) + "\n";
    assert indent + TrimStart(c) + "\n" == indent + (TrimStart(c) + "\n");
  }

  lemma Joined(a: string, b: string, c: string, d: string)
    ensures a + b + c + d == a + b + (c + d)
  {}

  lemma EndsInLine(w: string, indent: string, line: string)
    ensures EndsLine(w + (indent + (line + "\n")))
  {}

  /** A line inside a block comment. */
  lemma BlockContinues(indent: string, cs: seq<string>, c: string)
    requires IsHalf(indent, cs) && AllBlank(indent)
    ensures !HasBlockEnd(TrimStart(c)) ==> IsHalf(indent, cs + [c])
    ensures EndsAlone(TrimStart(c)) ==> RemarksSkip(indent, cs + [c])
  {
    var w: string :| CommentLines(indent, cs) == indent + "/*" + w && EndsLine(w) && Lexer.AfterBlock(w).NoScan?;
    var v := HalfLonger(indent, cs, c, w);
    var line := TrimStart(c);
    hide TrimStart, CommentLines, HasBlockEnd;
    if !HasBlockEnd(line) { NoEndBehind(line); }
    if EndsAlone(line) { ClosedSkips(indent, line, v); }
  }

  lemma ClosedSkips(indent: string, line: string, v: string)
    requires AllBlank(indent) && EndsAlone(line) && Lexer.AfterBlock(v) == Lexer.AfterBlock(line + "\n")
    ensures Skips(indent + "/*" + v)
  {
    AfterBlockOf(line, "\n");
    var s := "/*" + v;
    assert s[2..] == v;
    assert Skips(s);
    BlankSkips(indent);
    SkipsJoin(indent, s);
    assert indent + s == indent + "/*" + v;
  }

  lemma BlockGoesOnAt(cs: seq<string>, line: string)
    requires AreHalf(cs)
    ensures !HasBlockEnd(line) ==> AreHalf(cs + [TrimEnd(line)])
    ensures EndsAlone(TrimStart(TrimEnd(line))) ==> AreSkipped(cs + [TrimEnd(line)])
  {
    TrimEndBlock(line);
    TrimStartBlock(TrimEnd(line));
    hide HasBlockEnd, EndsAlone, TrimStart, TrimEnd, IsHalf;
    BlockContinues("", cs, TrimEnd(line));
    BlockContinues(INDENT, cs, TrimEnd(line));
  }

  // ---- What is collected of a source ----

  /** What is known after some lines: all comments are skipped where they will be written. */
  ghost predicate IsSettled(r: Reader)
  {
    && LayoutSettled(r.layout) && AreSkipped(r.top) && AreSkipped(r.body)
    && (r.comment.Some? ==> AreHalf(r.comment.value))
  }

  predicate ChainSettled(c: ChainComments) { AreSkipped(c.leading) && IsTrailing(c.trailing) }

  predicate DeclSettled(c: DeclComments)
  {
    AreSkipped(c.leading) && forall i :: 0 <= i < |c.chains| ==> ChainSettled(c.chains[i])
  }

  predicate LayoutSettled(layout: Layout) { forall i :: 0 <= i < |layout| ==> DeclSettled(layout[i]) }

  lemma KeptSettled(r: Reader, cs: seq<string>)
    requires IsSettled(r) && AreSkipped(cs)
    ensures IsSettled(Kept(r, cs))
  {
    hide AreSkipped;
    SkippedJoin(r.top, cs);
    SkippedJoin(r.body, cs);
  }

  lemma DeclaredSettled(r: Reader, code: string)
    requires IsSettled(r)
    ensures IsSettled(Declared(r, code)) && Declared(r, code).comment == r.comment
  {
    hide AreSkipped, StartsDeclaration, StartsCallable;
    NothingSkipped();
    if r.next < |r.layout| { SkippedJoin(r.layout[r.next].leading, r.top); }
  }

  lemma TakenSettled(r: Reader, remark: Option<string>)
    requires IsSettled(r) && r.open.Some? && IsTrailing(remark)
    ensures IsSettled(Taken(r, remark)) && Taken(r, remark).comment == r.comment
  {
    hide AreSkipped, IsTrailing;
    NothingSkipped();
    var d, i := r.open.value, r.chain;
    if HasChain(r.layout, d, i) {
      assert DeclSettled(r.layout[d]) && ChainSettled(r.layout[d].chains[i]);
      SkippedJoin(r.layout[d].chains[i].leading, r.body);
    }
  }

  lemma CodeSettled(r: Reader, line: string)
    requires IsSettled(r) && '\n' !in line
    ensures IsSettled(CodeStep(false, r, line)) && CodeStep(false, r, line).comment == r.comment
  {
    hide AreSkipped, HashAt, CodeOf, RemarkOf, IsHash, Declared, Taken, Trim;
    RemarkIsHash(line);
    NothingSkipped();
    var text, remark := Trim(CodeOf(line)), RemarkOf(line);
    if text == [] {
      if remark.Some? {
        HashIsSkipped(remark.value);
        KeptSettled(r, [remark.value]);
      }
    } else {
      DeclaredSettled(r, text);
      var named := Declared(r, text);
      if named.open.Some? { TakenSettled(named, remark); }
    }
  }

  lemma StandsOn(inBlock: bool, line: string, rest: string)
    requires '\n' !in line && (rest == "" || rest[0] == '\n') && line + rest != "" && BlocksStandAlone(inBlock, line + rest)
    ensures
      var first, more := TrimStart(line), AfterLine(line + rest);
      if inBlock then (HasBlockEnd(line) ==> EndsAlone(TrimStart(TrimEnd(line))))
        && BlocksStandAlone(!HasBlockEnd(line), more)
      else if StartsWith(first, "/*") then
        (HasBlockEnd(first) ==> EndsAlone(TrimEnd(first[2..]))) && BlocksStandAlone(!HasBlockEnd(first), more)
      else BlocksStandAlone(false, more)
  {
    FirstLine(line, rest);
    assert (line + rest)[..|line|] == line;
    hide HasBlockEnd, EndsAlone, TrimStart, TrimEnd, AfterLine, LineLength;
  }

  lemma StepSettled(r: Reader, line: string, rest: string)
    requires IsSettled(r) && '\n' !in line && (rest == "" || rest[0] == '\n') && line + rest != ""
    requires BlocksStandAlone(r.comment.Some?, line + rest)
    ensures var s := Step(false, r, line); IsSettled(s) && BlocksStandAlone(s.comment.Some?, AfterLine(line + rest))
  {
    StandsOn(r.comment.Some?, line, rest);
    hide BlocksStandAlone, AreSkipped, AreHalf, HasBlockEnd, EndsAlone, TrimStart, TrimEnd, CodeStep, LayoutSettled;
    if r.comment.Some? {
      BlockGoesOnAt(r.comment.value, line);
      if HasBlockEnd(line) { KeptSettled(r.(comment := None), r.comment.value + [TrimEnd(line)]); }
    } else if StartsWith(TrimStart(line), "/*") {
      BlockStarts(line);
      if HasBlockEnd(TrimStart(line)) { KeptSettled(r, [TrimStart(TrimEnd(line))]); }
    } else {
      CodeSettled(r, line);
    }
  }

  lemma {:induction false} FirstLine(line: string, rest: string)
    requires '\n' !in line && (rest == "" || rest[0] == '\n')
    ensures LineLength(line + rest) == |line|
  {
    if line == [] {
      assert line + rest == rest;
    } else {
      assert (line + rest)[1..] == line[1..] + rest;
      FirstLine(line[1..], rest);
    }
  }

  lemma {:induction false} LinesSettled(r: Reader, s: string)
    requires IsSettled(r) && BlocksStandAlone(r.comment.Some?, s)
    ensures IsSettled(ReadLines(false, r, s))
    decreases |s|
  {
    if s != [] {
      var n := LineLength(s);
      LineHasNoEnd(s);
      assert s == s[..n] + s[n..];
      hide IsSettled, Step, BlocksStandAlone;
      StepSettled(r, s[..n], s[n..]);
      LinesSettled(Step(false, r, s[..n]), AfterLine(s));
    }
  }

  /** If block comments stand alone on their lines, all comments that are kept are skipped where they are written. */
  lemma StandAloneBlocksAreSkipped(source: string, ds: seq<Decl>)
    requires BlocksStandAlone(false, source)
    ensures LayoutSkips(ReadLayout(source, ds))
  {
    NothingSkipped();
    hide AreSkipped, BlocksStandAlone;
    assert IsSettled(Start(ds));
    LinesSettled(Start(ds), source);
    var r := ReadLines(false, Start(ds), source);
    hide ReadLines;
    if r.next < |r.layout| { SkippedJoin(r.layout[r.next].leading, r.top); }
    SettledSkips(Finish(r));
  }

  lemma SettledSkips(layout: Layout)
    requires LayoutSettled(layout)
    ensures LayoutSkips(layout)
  {
    hide RemarksSkip;
    forall i | 0 <= i < |layout| ensures RemarksSkip("", layout[i].leading) && ChainsSkip(layout[i].chains) {
      assert DeclSettled(layout[i]);
    }
  }
}
