/** Every comment of a text is kept for a declaration or a chain, or lost in one of three ways. */
module CommentAccount {
  import opened Tokens
  import opened Ast
  import opened Comments
  import opened CommentLayout

  // ---- How often a comment occurs in a layout and in a text ----

  function Count(cs: seq<string>, x: string): nat { multiset(cs)[x] }

  function One(c: Option<string>, x: string): nat { if c == Some(x) then 1 else 0 }

  function InChain(c: ChainComments, x: string): nat { Count(c.leading, x) + One(c.trailing, x) }

  function InChains(cs: seq<ChainComments>, x: string): nat
  {
    if cs == [] then 0 else InChain(cs[0], x) + InChains(cs[1..], x)
  }

  function InDecl(d: DeclComments, x: string): nat { Count(d.leading, x) + InChains(d.chains, x) }

  function InLayout(layout: Layout, x: string): nat
  {
    if layout == [] then 0 else InDecl(layout[0], x) + InLayout(layout[1..], x)
  }

  predicate OpensBlock(line: string) { StartsWith(TrimStart(line), "/*") }

  /** The comment on a line: a line of a block comment, or what follows the first `#` outside of strings. */
  function OnLine(inBlock: bool, line: string): Option<string>
  {
    if inBlock then Some(TrimEnd(line))
    else if OpensBlock(line) then Some(TrimStart(TrimEnd(line)))
    else RemarkOf(line)
  }

  predicate InBlockAfter(inBlock: bool, line: string)
  {
    if inBlock then !HasBlockEnd(line) else OpensBlock(line) && !HasBlockEnd(TrimStart(line))
  }

  /** How many lines of a text have the comment. */
  function InText(inBlock: bool, s: string, x: string): nat
    decreases |s|
  {
    if s == [] then 0
    else
      var line := s[..LineLength(s)];
      One(OnLine(inBlock, line), x) + InText(InBlockAfter(inBlock, line), AfterLine(s), x)
  }

  // ---- What is lost on a line ----

  predicate IsCode(r: Reader, line: string) { r.comment.None? && !OpensBlock(line) && Trim(CodeOf(line)) != [] }

  /** There is such a chain in the module, and a line like this begins it. */
  predicate MayTake(r: Reader, text: string)
  {
    && r.open.Some? && r.level.brace == 1 && IsFlat(r.level) && !StartsWith(text, "->") && !StartsWith(text, "}")
    && HasChain(r.layout, r.open.value, r.chain)
  }

  predicate BeginsChain(r: Reader, line: string)
  {
    IsCode(r, line) && MayTake(Declared(r, Trim(CodeOf(line))), Trim(CodeOf(line)))
  }

  /** A comment behind code that begins no chain. */
  function LostBehind(r: Reader, line: string, x: string): nat
  {
    if IsCode(r, line) && !BeginsChain(r, line) then One(RemarkOf(line), x) else 0
  }

  predicate EndsCallable(r: Reader, line: string)
  {
    && IsCode(r, line)
    && Declared(r, Trim(CodeOf(line))).open.Some?
    && Depths(r.level, false, false, CodeOf(line)).brace == 0
  }

  /** Comments that no chain of the callable has taken when its last brace closes. */
  function LostAtEnd(r: Reader, line: string, x: string): nat
  {
    if EndsCallable(r, line) && !BeginsChain(r, line) then Count(r.body, x) else 0
  }

  function LostOn(r: Reader, s: string, x: string): nat
    decreases |s|
  {
    if s == [] then 0
    else
      var line := s[..LineLength(s)];
      LostBehind(r, line, x) + LostAtEnd(r, line, x) + LostOn(Step(false, r, line), AfterLine(s), x)
  }

  /** Comments behind the last declaration or the last chain, and a block comment that does not end. */
  function LeftOver(r: Reader, x: string): nat
  {
    (if r.next < |r.layout| then 0 else Count(r.top, x)) + Count(r.body, x) + InOpenBlock(r, x)
  }

  function InOpenBlock(r: Reader, x: string): nat { if r.comment.Some? then Count(r.comment.value, x) else 0 }

  function Lost(source: string, ds: seq<Decl>, x: string): nat
  {
    LostOn(Start(ds), source, x) + LeftOver(ReadLines(false, Start(ds), source), x)
  }

  // ---- Nothing else is lost, and nothing is made up ----

  function Held(r: Reader, x: string): nat
  {
    InLayout(r.layout, x) + Count(r.top, x) + Count(r.body, x) + InOpenBlock(r, x)
  }

  /** Chains that have not been reached have no comment behind them. */
  ghost predicate Untouched(r: Reader)
  {
    && r.next <= |r.layout|
    && (r.open.Some? ==> r.open.value < r.next)
    && (forall d, i :: r.next <= d < |r.layout| && 0 <= i < |r.layout[d].chains| ==> r.layout[d].chains[i].trailing.None?)
    && (r.open.Some? ==>
          forall i :: r.chain <= i < |r.layout[r.open.value].chains| ==>
            r.layout[r.open.value].chains[i].trailing.None?)
  }

  lemma CountJoin(a: seq<string>, b: seq<string>, x: string)
    ensures Count(a + b, x) == Count(a, x) + Count(b, x)
    ensures Count([], x) == 0
    ensures forall c :: Count([c], x) == One(Some(c), x)
  {
    assert multiset(a + b) == multiset(a) + multiset(b);
  }

  lemma {:induction false} ChainReplaced(cs: seq<ChainComments>, i: nat, c: ChainComments, x: string)
    requires i < |cs|
    ensures InChains(cs[i := c], x) + InChain(cs[i], x) == InChains(cs, x) + InChain(c, x)
  {
    hide InChain;
    if i == 0 {
      assert cs[0 := c][1..] == cs[1..];
    } else {
      assert cs[i := c][1..] == cs[1..][i - 1 := c];
      ChainReplaced(cs[1..], i - 1, c, x);
    }
  }

  lemma {:induction false} DeclReplaced(layout: Layout, d: nat, c: DeclComments, x: string)
    requires d < |layout|
    ensures InLayout(layout[d := c], x) + InDecl(layout[d], x) == InLayout(layout, x) + InDecl(c, x)
  {
    hide InDecl;
    if d == 0 {
      assert layout[0 := c][1..] == layout[1..];
    } else {
      assert layout[d := c][1..] == layout[1..][d - 1 := c];
      DeclReplaced(layout[1..], d - 1, c, x);
    }
  }

  lemma LeadingAdded(layout: Layout, d: nat, cs: seq<string>, x: string)
    requires d < |layout|
    ensures InLayout(SetLeading(layout, d, cs), x) == InLayout(layout, x) + Count(cs, x)
  {
    hide InLayout, InChains, Count;
    DeclReplaced(layout, d, layout[d].(leading := layout[d].leading + cs), x);
    CountJoin(layout[d].leading, cs, x);
  }

  lemma ChainFilled(layout: Layout, d: nat, i: nat, blank: bool, cs: seq<string>, remark: Option<string>, x: string)
    requires HasChain(layout, d, i) && layout[d].chains[i].trailing.None?
    ensures
      var c := ChainComments(blank, layout[d].chains[i].leading + cs, remark);
      InLayout(SetChain(layout, d, i, c), x) == InLayout(layout, x) + Count(cs, x) + One(remark, x)
  {
    hide InLayout, InChains, Count;
    var was := layout[d].chains[i];
    var c := ChainComments(blank, was.leading + cs, remark);
    DeclReplaced(layout, d, layout[d].(chains := layout[d].chains[i := c]), x);
    ChainReplaced(layout[d].chains, i, c, x);
    CountJoin(was.leading, cs, x);
  }

  lemma {:induction false} NothingYet(ds: seq<Decl>, x: string)
    ensures InLayout(Start(ds).layout, x) == 0
  {
    var layout := Start(ds).layout;
    if ds != [] {
      NothingYet(ds[1..], x);
      assert layout[1..] == Start(ds[1..]).layout;
      BareChains(|ChainsOf(ds[0])|, x);
    }
  }

  lemma {:induction false} BareChains(n: nat, x: string)
    ensures InChains(seq(n, _ => BARE), x) == 0
  {
    if n > 0 {
      assert seq(n, _ => BARE)[1..] == seq(n - 1, _ => BARE);
      BareChains(n - 1, x);
    }
  }

  lemma DeclaredAccount(r: Reader, text: string, x: string)
    requires Untouched(r)
    ensures
      var after := Declared(r, text);
      && Untouched(after) && Held(after, x) == Held(r, x)
      && after.body == r.body && after.comment == r.comment && after.level == r.level
  {
    hide InLayout, StartsDeclaration, StartsCallable, Count;
    CountJoin([], [], x);
    if r.next < |r.layout| { LeadingAdded(r.layout, r.next, r.top, x); }
  }

  /** The comment behind the code goes to the chain, if it begins one, and those that wait go before it. */
  lemma ChainedAccount(r: Reader, text: string, remark: Option<string>, x: string)
    requires Untouched(r)
    ensures
      var after := Chained(false, r, text, remark);
      && Untouched(after) && after.open == r.open && after.level == r.level && after.comment == r.comment
      && Held(after, x) == Held(r, x) + (if MayTake(r, text) then One(remark, x) else 0)
      && after.body == if MayTake(r, text) then [] else r.body
  {
    hide InLayout, StartsWith, Count;
    CountJoin([], [], x);
    if r.open.Some? && HasChain(r.layout, r.open.value, r.chain) {
      ChainFilled(r.layout, r.open.value, r.chain, r.blank, r.body, remark, x);
    }
  }

  lemma ClosedAccount(r: Reader, after: Level, x: string)
    requires Untouched(r)
    ensures
      var closed := Closed(r, after);
      && Untouched(closed) && closed.comment == r.comment
      && Held(closed, x) + (if r.open.Some? && after.brace == 0 then Count(r.body, x) else 0) == Held(r, x)
  {
    hide InLayout, Count;
    CountJoin([], [], x);
  }

  lemma KeptAccount(r: Reader, cs: seq<string>, x: string)
    requires Untouched(r)
    ensures Untouched(Kept(r, cs)) && Held(Kept(r, cs), x) == Held(r, x) + Count(cs, x) && Kept(r, cs).comment == r.comment
  {
    hide InLayout, Count;
    CountJoin(r.body, cs, x);
    CountJoin(r.top, cs, x);
  }

  lemma CodeAccount(r: Reader, line: string, x: string)
    requires Untouched(r) && IsCode(r, line)
    ensures
      var after := Step(false, r, line);
      && Untouched(after) && after.comment.None?
      && Held(after, x) + LostBehind(r, line, x) + LostAtEnd(r, line, x) == Held(r, x) + One(RemarkOf(line), x)
  {
    hide Chained, Declared, Depths, StartsWith, Untouched, TrimStart, TrimEnd, Trim, CodeOf, RemarkOf, Held, Count, MayTake,
      Closed;
    var text, remark := Trim(CodeOf(line)), RemarkOf(line);
    var named := Declared(r, text);
    DeclaredAccount(r, text, x);
    ChainedAccount(named, text, remark, x);
    ClosedAccount(Chained(false, named, text, remark), Depths(r.level, false, false, CodeOf(line)), x);
    CountJoin([], [], x);
  }

  lemma BlockAccount(r: Reader, lines: seq<string>, last: string, x: string)
    requires Untouched(r)
    requires lines == (if r.comment.Some? then r.comment.value else []) + [last]
    ensures Untouched(r.(comment := Some(lines))) && Untouched(r.(comment := None))
    ensures Held(r.(comment := Some(lines)), x) == Held(r, x) + One(Some(last), x)
    ensures Held(r.(comment := None), x) + Count(lines, x) == Held(r, x) + One(Some(last), x)
  {
    hide InLayout, Count;
    CountJoin(if r.comment.Some? then r.comment.value else [], [last], x);
  }

  lemma NoCodeAccount(r: Reader, x: string)
    requires Untouched(r)
    ensures Untouched(r.(blank := true)) && Held(r.(blank := true), x) == Held(r, x)
  {
    hide InLayout, Count;
  }

  lemma LineAccount(r: Reader, line: string, x: string)
    requires Untouched(r) && !IsCode(r, line)
    ensures
      var after := Step(false, r, line);
      && Untouched(after) && Held(after, x) == Held(r, x) + One(OnLine(r.comment.Some?, line), x)
      && (after.comment.Some? <==> InBlockAfter(r.comment.Some?, line))
  {
    hide HasBlockEnd, StartsWith, Untouched, TrimStart, TrimEnd, Trim, CodeOf, RemarkOf, Kept, Held, Count;
    if r.comment.Some? {
      var lines := r.comment.value + [TrimEnd(line)];
      BlockAccount(r, lines, TrimEnd(line), x);
      KeptAccount(r.(comment := None), lines, x);
    } else if OpensBlock(line) {
      var first := TrimStart(TrimEnd(line));
      assert [] + [first] == [first];
      BlockAccount(r, [first], first, x);
      KeptAccount(r, [first], x);
      CountJoin([], [], x);
    } else {
      NoCodeAccount(r, x);
      if RemarkOf(line).Some? { KeptAccount(r, [RemarkOf(line).value], x); }
      CountJoin([], [], x);
    }
  }

  /** What was held and what the line adds is held afterwards, or lost. */
  lemma StepAccount(r: Reader, line: string, x: string)
    requires Untouched(r)
    ensures
      var after := Step(false, r, line);
      && Untouched(after)
      && Held(after, x) + LostBehind(r, line, x) + LostAtEnd(r, line, x) == Held(r, x) + One(OnLine(r.comment.Some?, line), x)
      && (after.comment.Some? <==> InBlockAfter(r.comment.Some?, line))
  {
    hide Step, Untouched, Held, RemarkOf, Trim, CodeOf, HasBlockEnd, Declared, Depths, Count, BeginsChain;
    if IsCode(r, line) {
      CodeAccount(r, line, x);
    } else {
      LineAccount(r, line, x);
    }
  }

  lemma {:induction false} LinesAccount(r: Reader, s: string, x: string)
    requires Untouched(r)
    ensures
      var after := ReadLines(false, r, s);
      Untouched(after) && Held(after, x) + LostOn(r, s, x) == Held(r, x) + InText(r.comment.Some?, s, x)
    decreases |s|
  {
    hide Untouched, Held, Step, LostBehind, LostAtEnd, OnLine, InBlockAfter, LineLength;
    if s != [] {
      var line := s[..LineLength(s)];
      StepAccount(r, line, x);
      LinesAccount(Step(false, r, line), AfterLine(s), x);
    }
  }

  /**
   * The comments that are collected are those of the text, each as often as it occurs, but for those behind code that
   * begins no chain, those behind the last chain of their callable, and those behind the last declaration.
   */
  lemma CommentsAreKeptOrLost(source: string, ds: seq<Decl>, x: string)
    ensures InLayout(ReadLayout(source, ds), x) + Lost(source, ds, x) == InText(false, source, x)
  {
    hide InLayout, InText, LostOn, ReadLines, Count, Untouched;
    Began(ds, x);
    LinesAccount(Start(ds), source, x);
    var r := ReadLines(false, Start(ds), source);
    if r.next < |r.layout| { LeadingAdded(r.layout, r.next, r.top, x); }
  }

  lemma Began(ds: seq<Decl>, x: string)
    ensures Untouched(Start(ds)) && Held(Start(ds), x) == 0
  {
    NothingYet(ds, x);
    hide InLayout;
  }

  /** So a comment is kept everywhere exactly when it is in no such place. */
  lemma CommentIsKeptIff(source: string, ds: seq<Decl>, x: string)
    ensures InLayout(ReadLayout(source, ds), x) == InText(false, source, x) <==> Lost(source, ds, x) == 0
  {
    hide InLayout, InText, Lost;
    CommentsAreKeptOrLost(source, ds, x);
  }

  // ---- Places where comments are lost ----

  lemma {:induction false} LineIs(a: string, s: string)
    requires '\n' !in a
    ensures LineLength(a + "\n" + s) == |a|
    ensures AfterLine(a + "\n" + s) == s && (a + "\n" + s)[..|a|] == a
  {
    if a == [] {
      assert a + "\n" + s == "\n" + s;
    } else {
      assert (a + "\n" + s)[1..] == a[1..] + "\n" + s;
      LineIs(a[1..], s);
    }
  }

  lemma LineRead(r: Reader, a: string, s: string)
    requires '\n' !in a
    ensures ReadLines(false, r, a + "\n" + s) == ReadLines(false, Step(false, r, a), s)
  {
    LineIs(a, s);
    hide Step;
  }

  lemma {:induction false} LineSplits(s: string)
    requires s != [] && s[|s| - 1] == '\n'
    ensures
      var n := LineLength(s);
      n < |s| && '\n' !in s[..n] && s == s[..n] + "\n" + AfterLine(s)
  {
    if s[0] != '\n' {
      LineSplits(s[1..]);
      var n := LineLength(s[1..]);
      assert s[..n + 1] == [s[0]] + s[1..][..n];
    }
  }

  /** Whole lines are read before what follows them. */
  lemma {:induction false} LinesRead(r: Reader, s: string, u: string)
    requires s == [] || s[|s| - 1] == '\n'
    ensures ReadLines(false, r, s + u) == ReadLines(false, ReadLines(false, r, s), u)
    decreases |s|
  {
    hide Step, LineLength, AfterLine;
    if s == [] {
      assert s + u == u;
    } else {
      LineSplits(s);
      var line, rest := s[..LineLength(s)], AfterLine(s);
      assert s + u == line + "\n" + (rest + u);
      LineRead(r, line, rest + u);
      LineRead(r, line, rest);
      LinesRead(Step(false, r, line), rest, u);
    }
  }

  lemma Ends(c: string)
    requires IsHash(c)
    ensures TrimStart(c) == c && TrimEnd(c) == c && CodeOf(c) == [] && RemarkOf(c) == Some(c) && !StartsWith(c, "/*")
  {
    assert c[0..] == c;
  }

  /** A comment on a line of its own waits. */
  lemma RemarkStep(r: Reader, c: string)
    requires IsHash(c) && r.comment.None?
    ensures Step(false, r, c) == Kept(r, [c])
    ensures Step(false, r, "    " + c) == Kept(r, [c])
  {
    Ends(c);
    IndentedStep(c);
    assert Trim([]) == [];
    hide TrimStart, TrimEnd, CodeOf, RemarkOf, StartsWith;
  }

  lemma IndentedStep(c: string)
    requires IsHash(c)
    ensures TrimStart("    " + c) == c && CodeOf("    " + c) == "    " && RemarkOf("    " + c) == Some(c)
    ensures Trim("    ") == []
  {
    Ends(c);
    Blanks(c);
    Blanks("");
    var s := "    " + c;
    assert s[..4] == "    " && s[4..] == c && "    " + "" == "    ";
    hide TrimStart, HashAt;
  }

  lemma Blanks(s: string)
    ensures TrimStart("    " + s) == TrimStart(s) && HashAt(false, false, "    " + s) == 4 + HashAt(false, false, s)
  {
    BlankFirst(s);
    BlankFirst(" " + s);
    BlankFirst("  " + s);
    BlankFirst("   " + s);
    assert " " + (" " + s) == "  " + s && " " + ("  " + s) == "   " + s && " " + ("   " + s) == "    " + s;
    hide TrimStart, HashAt;
  }

  lemma BlankFirst(s: string)
    ensures TrimStart(" " + s) == TrimStart(s) && HashAt(false, false, " " + s) == 1 + HashAt(false, false, s)
  {
    assert (" " + s)[1..] == s;
  }

  /** Comments behind the last declaration are lost: they wait for one that does not come. */
  lemma CommentsAtTheEndAreLost(s: string, c: string, ds: seq<Decl>)
    requires (s == [] || s[|s| - 1] == '\n') && IsHash(c)
    requires
      var r := ReadLines(false, Start(ds), s);
      r.next == |r.layout| && r.open.None? && r.comment.None?
    ensures ReadLayout(s + (c + "\n"), ds) == ReadLayout(s, ds)
  {
    var r := ReadLines(false, Start(ds), s);
    LinesRead(Start(ds), s, c + "\n");
    assert c + "\n" + "" == c + "\n";
    LineRead(r, c, "");
    RemarkStep(r, c);
  }

  lemma BraceStep(r: Reader)
    requires r.open.Some? && r.level.brace == 1 && r.comment.None?
    ensures
      Step(false, r, "}") == r.(level := r.level.(brace := 0), open := None, blank := false, body := [])
  {
    assert "}"[1..] == "" && TrimStart("}") == "}" && TrimEnd("}") == "}";
    assert CodeOf("}") == "}" && RemarkOf("}") == None;
    assert Depths(r.level, false, false, "}") == Depths(r.level.(brace := 0), false, false, "");
  }

  /** Comments behind the last chain of a callable are lost: they wait for a chain, and the closing brace comes. */
  lemma CommentsBeforeTheBraceAreLost(s: string, c: string, rest: string, ds: seq<Decl>)
    requires s != [] && s[|s| - 1] == '\n' && IsHash(c)
    requires
      var r := ReadLines(false, Start(ds), s);
      r.open.Some? && r.level.brace == 1 && r.comment.None?
    ensures ReadLayout(s + ("    " + c + "\n" + ("}" + "\n" + rest)), ds) == ReadLayout(s + ("}" + "\n" + rest), ds)
  {
    hide Step, ReadLines;
    var r := ReadLines(false, Start(ds), s);
    var end := "}" + "\n" + rest;
    LinesRead(Start(ds), s, "    " + c + "\n" + end);
    LinesRead(Start(ds), s, end);
    LineRead(r, "    " + c, end);
    RemarkStep(r, c);
    LineRead(Kept(r, [c]), "}", rest);
    LineRead(r, "}", rest);
    BraceStep(r);
    BraceStep(Kept(r, [c]));
  }
}
