/** What the collected comments of src/fmt.rs look like, and how they are read back where they are written. */
module KeptComments {
  import opened Tokens
  import opened Ast
  import opened Comments
  import opened CommentLayout
  import opened PrintedLines

  // ---- Whole comments ----

  /** A line without its end and without blanks before it. */
  predicate IsLine(s: string) { '\n' !in s && (s != [] ==> !IsWhite(s[|s| - 1])) }

  /**
   * Whether a block comment is open behind these lines, given whether one is open before; nothing if they are no
   * comments.
   */
  function Behind(inBlock: bool, cs: seq<string>): Option<bool>
    decreases |cs|
  {
    if cs == [] then Some(inBlock)
    else if !IsLine(cs[0]) then None
    else if inBlock then Behind(!HasBlockEnd(cs[0]), cs[1..])
    else if StartsWith(cs[0], "#") then Behind(false, cs[1..])
    else if StartsWith(cs[0], "/*") then Behind(!HasBlockEnd(cs[0]), cs[1..])
    else None
  }

  predicate AreComments(cs: seq<string>) { Behind(false, cs) == Some(false) }

  lemma {:induction false} BehindBoth(inBlock: bool, a: seq<string>, b: seq<string>)
    requires Behind(inBlock, a).Some?
    ensures Behind(inBlock, a + b) == Behind(Behind(inBlock, a).value, b)
    decreases |a|
  {
    if a == [] {
      assert a + b == b;
    } else {
      hide HasBlockEnd, IsLine;
      assert (a + b)[1..] == a[1..] + b;
      BehindBoth(if inBlock || !StartsWith(a[0], "#") then !HasBlockEnd(a[0]) else false, a[1..], b);
    }
  }

  lemma BehindOne(inBlock: bool, c: string)
    requires IsLine(c) && (inBlock || StartsWith(c, "#") || StartsWith(c, "/*"))
    ensures Behind(inBlock, [c]) == Some(if !inBlock && StartsWith(c, "#") then false else !HasBlockEnd(c))
  {
    assert [c][1..] == [];
  }

  predicate IsChainKept(c: ChainComments) { AreComments(c.leading) && IsTrailing(c.trailing) }

  predicate IsDeclKept(c: DeclComments)
  {
    AreComments(c.leading) && forall i :: 0 <= i < |c.chains| ==> IsChainKept(c.chains[i])
  }

  /** The comments are whole, in every place. */
  predicate IsKept(layout: Layout) { forall i :: 0 <= i < |layout| ==> IsDeclKept(layout[i]) }

  // ---- Trimming ----

  lemma {:induction false} TrimEndBlock(s: string)
    ensures HasBlockEnd(TrimEnd(s)) <==> HasBlockEnd(s)
  {
    if s != [] && IsWhite(s[|s| - 1]) {
      var t := s[..|s| - 1];
      TrimEndBlock(t);
      if HasBlockEnd(s) {
        var i :| 0 <= i < |s| - 1 && s[i] == '*' && s[i + 1] == '/';
        assert t[i] == '*' && t[i + 1] == '/';
      }
      if HasBlockEnd(t) {
        var i :| 0 <= i < |t| - 1 && t[i] == '*' && t[i + 1] == '/';
        assert s[i] == '*' && s[i + 1] == '/';
      }
    }
  }

  lemma {:induction false} TrimStartBlock(s: string)
    ensures HasBlockEnd(TrimStart(s)) <==> HasBlockEnd(s)
  {
    if s != [] && IsWhite(s[0]) {
      var t := s[1..];
      TrimStartBlock(t);
      if HasBlockEnd(s) {
        var i :| 0 <= i < |s| - 1 && s[i] == '*' && s[i + 1] == '/';
        assert t[i - 1] == '*' && t[i] == '/';
      }
      if HasBlockEnd(t) {
        var i :| 0 <= i < |t| - 1 && t[i] == '*' && t[i + 1] == '/';
        assert s[i + 1] == '*' && s[i + 2] == '/';
      }
    }
  }

  lemma TrimEndIsLine(s: string)
    requires '\n' !in s
    ensures IsLine(TrimEnd(s))
  {}

  lemma {:induction false} TrimStartSplits(s: string) returns (w: string)
    ensures s == w + TrimStart(s) && AllWhite(w)
  {
    if s != [] && IsWhite(s[0]) {
      var v := TrimStartSplits(s[1..]);
      w := [s[0]] + v;
      assert s == [s[0]] + (v + TrimStart(s[1..]));
    } else {
      w := "";
    }
  }

  lemma {:induction false} TrimWhite(w: string, s: string)
    requires AllWhite(w)
    ensures TrimStart(w + s) == TrimStart(s)
  {
    if w == [] {
      assert w + s == s;
    } else {
      assert (w + s)[1..] == w[1..] + s;
      TrimWhite(w[1..], s);
    }
  }

  lemma HashFirst(s: string)
    ensures StartsWith(s, "#") ==> s[0] == '#'
  {
    if StartsWith(s, "#") { assert s[..1][0] == '#'; }
  }

  /** Trimming both ends in either order. */
  lemma TrimBoth(line: string, m: string)
    requires TrimStart(line) == "/*" + m
    ensures TrimStart(TrimEnd(line)) == "/*" + TrimEnd(m) && TrimEnd(TrimStart(line)) == "/*" + TrimEnd(m)
  {
    var w := TrimStartSplits(line);
    var first := "/*" + TrimEnd(m);
    hide TrimEnd, AllWhite;
    TrimEndKeeps("/*", m);
    assert line == (w + "/*") + m;
    TrimEndKeeps(w + "/*", m);
    assert (w + "/*") + TrimEnd(m) == w + first;
    TrimWhite(w, first);
    StartsItself(first);
  }

  lemma StartsItself(s: string)
    requires s != [] && !IsWhite(s[0])
    ensures TrimStart(s) == s
  {}

  /** The first line of a block comment, trimmed at both ends. */
  lemma BlockFirst(line: string)
    requires StartsWith(TrimStart(line), "/*") && '\n' !in line
    ensures
      var first := TrimStart(TrimEnd(line));
      IsLine(first) && StartsWith(first, "/*") && !StartsWith(first, "#")
        && (HasBlockEnd(first) <==> HasBlockEnd(TrimStart(line)))
  {
    var code := TrimStart(line);
    var m := code[2..];
    assert code == "/*" + m;
    TrimBoth(line, m);
    var first := "/*" + TrimEnd(m);
    var w := TrimStartSplits(line);
    hide TrimStart, TrimEnd, HasBlockEnd;
    TrimEndIsLine(code);
    TrimEndBlock(code);
    assert first[..2] == "/*" && first[0] == '/';
    HashFirst(first);
  }

  // ---- Collected comments are whole ----

  /** What every round of the loop over lines keeps. */
  predicate IsSound(r: Reader)
  {
    && IsKept(r.layout) && AreComments(r.top) && AreComments(r.body)
    && (r.comment.Some? ==> Behind(false, r.comment.value) == Some(true))
  }

  lemma RemarkIsHash(line: string)
    requires '\n' !in line
    ensures IsTrailing(RemarkOf(line))
    ensures RemarkOf(line).Some? ==> AreComments([RemarkOf(line).value])
  {
    var n := HashAt(false, false, line);
    if n < |line| {
      HashFound(false, false, line);
      var s := line[n..];
      assert s == "#" + s[1..];
      TrimEndKeeps("#", s[1..]);
      var c := TrimEnd(s);
      assert c == "#" + TrimEnd(s[1..]) && c[0] == '#' && c[..1] == "#";
      BehindOne(false, c);
    }
  }

  lemma {:induction false} HashFound(inString: bool, escaped: bool, s: string)
    requires HashAt(inString, escaped, s) < |s|
    ensures s[HashAt(inString, escaped, s)] == '#'
    decreases |s|
  {
    if inString {
      HashFound(escaped || s[0] != '"', !escaped && s[0] == '\\', s[1..]);
    } else if s[0] != '#' {
      HashFound(s[0] == '"', escaped, s[1..]);
    }
  }

  lemma KeptIsSound(r: Reader, cs: seq<string>)
    requires IsSound(r) && AreComments(cs)
    ensures IsSound(Kept(r, cs))
  {
    hide Behind, IsKept;
    BehindBoth(false, r.top, cs);
    BehindBoth(false, r.body, cs);
  }

  lemma DeclaredIsSound(r: Reader, code: string)
    requires IsSound(r)
    ensures IsSound(Declared(r, code)) && Declared(r, code).comment == r.comment
  {
    hide Behind, StartsDeclaration, StartsCallable;
    assert AreComments([]) by { NoComment(); }
    if r.next < |r.layout| { BehindBoth(false, r.layout[r.next].leading, r.top); }
  }

  lemma NoComment()
    ensures AreComments([])
  {}

  lemma TakenIsSound(r: Reader, remark: Option<string>)
    requires IsSound(r) && r.open.Some? && IsTrailing(remark)
    ensures IsSound(Taken(r, remark)) && Taken(r, remark).comment == r.comment
  {
    hide Behind, IsTrailing;
    assert AreComments([]) by { NoComment(); }
    var d, i := r.open.value, r.chain;
    if HasChain(r.layout, d, i) {
      assert IsDeclKept(r.layout[d]) && IsChainKept(r.layout[d].chains[i]);
      BehindBoth(false, r.layout[d].chains[i].leading, r.body);
    }
  }

  lemma StepIsSound(r: Reader, line: string)
    requires IsSound(r) && '\n' !in line
    ensures IsSound(Step(false, r, line))
  {
    hide Behind, IsKept, HasBlockEnd, HashAt, CodeOf, RemarkOf, IsTrailing;
    var trimmed := TrimStart(line);
    if r.comment.Some? {
      var last := TrimEnd(line);
      TrimEndIsLine(line);
      TrimEndBlock(line);
      BehindOne(true, last);
      BehindBoth(false, r.comment.value, [last]);
      if HasBlockEnd(line) { KeptIsSound(r.(comment := None), r.comment.value + [last]); }
    } else if StartsWith(trimmed, "/*") {
      BlockFirst(line);
      var first := TrimStart(TrimEnd(line));
      BehindOne(false, first);
      if HasBlockEnd(trimmed) { KeptIsSound(r, [first]); }
    } else {
      CodeIsSound(r, line);
    }
  }

  lemma CodeIsSound(r: Reader, line: string)
    requires IsSound(r) && '\n' !in line
    ensures IsSound(CodeStep(false, r, line))
  {
    hide Behind, IsKept, HashAt, CodeOf, RemarkOf, IsTrailing, Declared, Taken, Trim;
    RemarkIsHash(line);
    var text, remark := Trim(CodeOf(line)), RemarkOf(line);
    if text == [] {
      if remark.Some? { KeptIsSound(r, [remark.value]); }
    } else {
      DeclaredIsSound(r, text);
      var named := Declared(r, text);
      if named.open.Some? { TakenIsSound(named, remark); }
      assert AreComments([]) by { NoComment(); }
    }
  }

  lemma {:induction false} LineHasNoEnd(s: string)
    ensures '\n' !in s[..LineLength(s)]
  {
    if s != [] && s[0] != '\n' {
      LineHasNoEnd(s[1..]);
      assert s[..LineLength(s)] == [s[0]] + s[1..][..LineLength(s[1..])];
    }
  }

  lemma {:induction false} LinesAreSound(r: Reader, s: string)
    requires IsSound(r)
    ensures IsSound(ReadLines(false, r, s))
    decreases |s|
  {
    hide IsSound, Step;
    if s != [] {
      LineHasNoEnd(s);
      StepIsSound(r, s[..LineLength(s)]);
      LinesAreSound(Step(false, r, s[..LineLength(s)]), AfterLine(s));
    }
  }

  /** Whatever the text, the collected comments are whole: lines from `#` on, and blocks with their end. */
  lemma CollectedIsKept(s: string, ds: seq<Decl>)
    ensures IsKept(ReadLayout(s, ds))
  {
    assert AreComments([]) by { NoComment(); }
    LinesAreSound(Start(ds), s);
    var r := ReadLines(false, Start(ds), s);
    hide Behind, ReadLines;
    if r.next < |r.layout| { BehindBoth(false, r.layout[r.next].leading, r.top); }
  }

  // ---- Written comments are read back ----

  /** The comments as they are collected from the lines they are written on. */
  function Again(inBlock: bool, indent: string, cs: seq<string>): seq<string>
    decreases |cs|
  {
    if cs == [] then []
    else if inBlock then [TrimEnd(indent + TrimStart(cs[0]))] + Again(!HasBlockEnd(cs[0]), indent, cs[1..])
    else [TrimStart(cs[0])] + Again(!StartsWith(cs[0], "#") && !HasBlockEnd(cs[0]), indent, cs[1..])
  }

  /** Comments that end a block that may be open. */
  function KeptAll(r: Reader, cs: seq<string>): Reader
  {
    if r.comment.Some? then Kept(r.(comment := None), r.comment.value + cs) else Kept(r, cs)
  }

  lemma LineInside(indent: string, c: string)
    requires IsLine(c) && AllSpaces(indent)
    ensures
      var a := indent + TrimStart(c);
      && '\n' !in a && (HasBlockEnd(a) <==> HasBlockEnd(c))
      && (HasBlockEnd(TrimStart(a)) <==> HasBlockEnd(c))
  {
    var w := TrimStartSplits(c);
    var a := indent + TrimStart(c);
    TrimStartBlock(c);
    TrimWhite(indent, TrimStart(c));
    TrimStartTwice(c);
    TrimStartBlock(a);
  }

  lemma {:induction false} TrimStartTwice(s: string)
    ensures TrimStart(TrimStart(s)) == TrimStart(s)
  {}

  lemma StartsKept(c: string, w: string)
    requires StartsWith(c, w) && w != [] && !IsWhite(w[0])
    ensures TrimStart(c) == c
  {
    assert c[0] == c[..|w|][0];
  }

  /** A line of comment outside of blocks. */
  lemma HashStep(keen: bool, r: Reader, indent: string, c: string)
    requires r.comment.None? && IsLine(c) && StartsWith(c, "#") && AllSpaces(indent)
    ensures Step(keen, r, indent + c) == Kept(r, [c])
  {
    var line := indent + c;
    StartsKept(c, "#");
    TrimWhite(indent, c);
    assert c[0] == c[..1][0] == '#';
    if StartsWith(c, "/*") { SlashFirst(c); }
    SpacesSplit(indent, c);
    assert HashAt(false, false, c) == 0 && c[..0] == [] && c[0..] == c;
    TrimEndOf(c);
    assert RemarkOf(c) == Some(c) && CodeOf(c) == "";
    assert indent + "" == indent;
    TrimWhite(indent, "");
    assert TrimStart("") == "" && TrimEnd("") == "";
    assert Trim(CodeOf(line)) == "";
  }

  lemma BlockStep(keen: bool, r: Reader, indent: string, c: string)
    requires r.comment.None? && IsLine(c) && StartsWith(c, "/*") && AllSpaces(indent)
    ensures Step(keen, r, indent + c) == if HasBlockEnd(c) then Kept(r, [c]) else r.(comment := Some([c]))
  {
    var line := indent + c;
    StartsKept(c, "/*");
    TrimWhite(indent, c);
    TrimEndOf(line) by { assert line[|line| - 1] == c[|c| - 1]; }
  }

  lemma {:induction false} RemarksRead(keen: bool, r: Reader, indent: string, cs: seq<string>, s: string)
    requires Behind(r.comment.Some?, cs) == Some(false) && AllSpaces(indent)
    ensures ReadLines(keen, r, CommentLines(indent, cs) + s)
         == ReadLines(keen, KeptAll(r, Again(r.comment.Some?, indent, cs)), s)
    decreases |cs|
  {
    hide ReadLines, HasBlockEnd, TrimStart, TrimEnd, Step, IsLine, CommentLines;
    if cs == [] {
      assert CommentLines(indent, cs) == "" by { NoLines(indent); }
      assert CommentLines(indent, cs) + s == s;
      KeptNothing(r);
    } else {
      var c, rest := cs[0], CommentLines(indent, cs[1..]);
      var a := indent + TrimStart(c);
      LineInside(indent, c);
      LineThen(keen, r, a, rest + s);
      Lines(indent, cs, s);
      var r1 := Step(keen, r, a);
      if r.comment.Some? {
        InBlockStep(keen, r, a);
        RemarksRead(keen, r1, indent, cs[1..], s);
        KeptInTurn(r, TrimEnd(a), HasBlockEnd(a), Again(!HasBlockEnd(c), indent, cs[1..]));
      } else {
        FirstStep(keen, r, indent, c);
        RemarksRead(keen, r1, indent, cs[1..], s);
        KeptFirst(r, c, StartsWith(c, "#") || HasBlockEnd(c), Again(!StartsWith(c, "#") && !HasBlockEnd(c), indent, cs[1..]));
      }
    }
  }

  lemma NoLines(indent: string)
    ensures CommentLines(indent, []) == ""
  {}

  lemma Lines(indent: string, cs: seq<string>, s: string)
    requires cs != []
    ensures CommentLines(indent, cs) + s == indent + TrimStart(cs[0]) + "\n" + (CommentLines(indent, cs[1..]) + s)
  {
    hide TrimStart;
    var a, rest := indent + TrimStart(cs[0]), CommentLines(indent, cs[1..]);
    assert a + "\n" + rest + s == a + "\n" + (rest + s);
  }

  lemma KeptNothing(r: Reader)
    requires r.comment.None?
    ensures KeptAll(r, []) == r
  {
    assert r.body + [] == r.body && r.top + [] == r.top;
  }

  lemma InBlockStep(keen: bool, r: Reader, a: string)
    requires r.comment.Some?
    ensures
      var lines := r.comment.value + [TrimEnd(a)];
      Step(keen, r, a) == if HasBlockEnd(a) then Kept(r.(comment := None), lines) else r.(comment := Some(lines))
  {}

  lemma FirstStep(keen: bool, r: Reader, indent: string, c: string)
    requires r.comment.None? && IsLine(c) && (StartsWith(c, "#") || StartsWith(c, "/*")) && AllSpaces(indent)
    ensures TrimStart(c) == c
    ensures Step(keen, r, indent + c)
         == if StartsWith(c, "#") || HasBlockEnd(c) then Kept(r, [c]) else r.(comment := Some([c]))
  {
    hide Step, HasBlockEnd;
    if StartsWith(c, "#") {
      StartsKept(c, "#");
      HashStep(keen, r, indent, c);
    } else {
      StartsKept(c, "/*");
      BlockStep(keen, r, indent, c);
    }
  }

  lemma KeptInTurn(r: Reader, last: string, ends: bool, cs: seq<string>)
    requires r.comment.Some?
    ensures
      var lines := r.comment.value + [last];
      KeptAll(if ends then Kept(r.(comment := None), lines) else r.(comment := Some(lines)), cs) == KeptAll(r, [last] + cs)
  {
    var lines := r.comment.value + [last];
    assert r.comment.value + ([last] + cs) == lines + cs;
    assert r.body + (lines + cs) == r.body + lines + cs && r.top + (lines + cs) == r.top + lines + cs;
  }

  lemma KeptFirst(r: Reader, first: string, ends: bool, cs: seq<string>)
    requires r.comment.None?
    ensures KeptAll(if ends then Kept(r, [first]) else r.(comment := Some([first])), cs) == KeptAll(r, [first] + cs)
  {
    assert r.body + ([first] + cs) == r.body + [first] + cs && r.top + ([first] + cs) == r.top + [first] + cs;
  }

  /** Comments that are read back are written the same. */
  lemma {:induction false} AgainIsWritten(inBlock: bool, indent: string, cs: seq<string>)
    requires Behind(inBlock, cs).Some? && AllSpaces(indent)
    ensures CommentLines(indent, Again(inBlock, indent, cs)) == CommentLines(indent, cs)
    ensures |Again(inBlock, indent, cs)| == |cs|
    decreases |cs|
  {
    if cs != [] {
      hide HasBlockEnd;
      var c := cs[0];
      var again := Again(inBlock, indent, cs);
      var next := if inBlock then !HasBlockEnd(c) else !StartsWith(c, "#") && !HasBlockEnd(c);
      AgainIsWritten(next, indent, cs[1..]);
      assert again[1..] == Again(next, indent, cs[1..]);
      if inBlock { TrimBack(indent, c); } else { TrimStartTwice(c); }
      assert TrimStart(again[0]) == TrimStart(c);
    }
  }

  lemma TrimBack(indent: string, c: string)
    requires IsLine(c) && AllSpaces(indent)
    ensures TrimStart(TrimEnd(indent + TrimStart(c))) == TrimStart(c)
  {
    var t := TrimStart(c);
    var w := TrimStartSplits(c);
    if t == [] {
      AllTrimmed(indent);
      assert indent + t == indent;
      assert TrimStart("") == "";
    } else {
      var a := indent + t;
      assert a[|a| - 1] == t[|t| - 1] == c[|c| - 1];
      TrimEndOf(a);
      TrimWhite(indent, t);
      TrimStartTwice(c);
    }
  }

  lemma {:induction false} AllTrimmed(s: string)
    requires AllSpaces(s)
    ensures TrimEnd(s) == ""
  {
    if s != [] { AllTrimmed(s[..|s| - 1]); }
  }

  /** And they are whole again. */
  lemma {:induction false} AgainBehind(inBlock: bool, indent: string, cs: seq<string>)
    requires Behind(inBlock, cs).Some? && AllSpaces(indent)
    ensures Behind(inBlock, Again(inBlock, indent, cs)) == Behind(inBlock, cs)
    decreases |cs|
  {
    if cs != [] {
      hide HasBlockEnd, IsLine, TrimStart, TrimEnd;
      var c := cs[0];
      var again := Again(inBlock, indent, cs);
      var next := if inBlock then !HasBlockEnd(c) else !StartsWith(c, "#") && !HasBlockEnd(c);
      AgainBehind(next, indent, cs[1..]);
      assert again[1..] == Again(next, indent, cs[1..]);
      if inBlock {
        LineInside(indent, c);
        TrimEndBlock(indent + TrimStart(c));
        TrimEndIsLine(indent + TrimStart(c));
      } else {
        FirstKept(c);
      }
    }
  }

  lemma FirstKept(c: string)
    requires StartsWith(c, "#") || StartsWith(c, "/*")
    ensures TrimStart(c) == c
  {
    if StartsWith(c, "#") { StartsKept(c, "#"); } else { StartsKept(c, "/*"); }
  }
}
