/** CommentLayout::collect of src/fmt.rs: the comments and blank lines of a text, line by line. */
module CommentLayout {
  import opened Tokens
  import opened Ast
  import opened Comments

  // ---- Brackets ----

  /** How many braces, parentheses and brackets are open. */
  datatype Level = Level(brace: int, paren: int, bracket: int)

  const BOTTOM := Level(0, 0, 0)

  function CharLevel(l: Level, c: char): Level
  {
    if c == '{' then l.(brace := l.brace + 1)
    else if c == '}' then l.(brace := l.brace - 1)
    else if c == '(' then l.(paren := l.paren + 1)
    else if c == ')' then l.(paren := l.paren - 1)
    else if c == '[' then l.(bracket := l.bracket + 1)
    else if c == ']' then l.(bracket := l.bracket - 1)
    else l
  }

  /** The level behind a text; brackets in a string do not count. */
  function Depths(l: Level, inString: bool, escaped: bool, s: string): Level
    decreases |s|
  {
    if s == [] then l
    else if inString then Depths(l, escaped || s[0] != '"', !escaped && s[0] == '\\', s[1..])
    else if s[0] == '"' then Depths(l, true, escaped, s[1..])
    else Depths(CharLevel(l, s[0]), false, escaped, s[1..])
  }

  method UpdateDepths(code: string, level: Level) returns (after: Level)
    ensures after == Depths(level, false, false, code)
  {
    var escaped, inString := false, false;
    after := level;
    for i := 0 to |code|
      invariant Depths(after, inString, escaped, code[i..]) == Depths(level, false, false, code)
    {
      var ch := code[i];
      assert code[i..][1..] == code[i + 1..];
      if inString {
        if escaped {
          escaped := false;
        } else if ch == '\\' {
          escaped := true;
        } else if ch == '"' {
          inString := false;
        }
      } else if ch == '"' {
        inString := true;
      } else {
        after := CharLevel(after, ch);
      }
    }
  }

  // ---- Code and comment of a line ----

  /** Where the first `#` outside of strings stands, or the end; every line starts outside of strings. */
  function HashAt(inString: bool, escaped: bool, s: string): (n: nat)
    ensures n <= |s|
    decreases |s|
  {
    if s == [] then 0
    else if inString then 1 + HashAt(escaped || s[0] != '"', !escaped && s[0] == '\\', s[1..])
    else if s[0] == '#' then 0
    else 1 + HashAt(s[0] == '"', escaped, s[1..])
  }

  function CodeOf(line: string): string { line[..HashAt(false, false, line)] }

  function RemarkOf(line: string): Option<string>
  {
    var n := HashAt(false, false, line);
    if n < |line| then Some(TrimEnd(line[n..])) else None
  }

  method SplitLineComment(line: string) returns (code: string, comment: Option<string>)
    ensures code == CodeOf(line) && comment == RemarkOf(line)
  {
    var escaped, inString := false, false;
    for i := 0 to |line|
      invariant HashAt(false, false, line) == i + HashAt(inString, escaped, line[i..])
    {
      var ch := line[i];
      assert line[i..][1..] == line[i + 1..];
      if inString {
        if escaped {
          escaped := false;
        } else if ch == '\\' {
          escaped := true;
        } else if ch == '"' {
          inString := false;
        }
      } else if ch == '"' {
        inString := true;
      } else if ch == '#' {
        return line[..i], Some(TrimEnd(line[i..]));
      }
    }
    assert line[..|line|] == line;
    return line, None;
  }

  // ---- What a line starts with ----

  function Trim(s: string): string { TrimEnd(TrimStart(s)) }

  predicate StartsWith(s: string, w: string) { |w| <= |s| && s[..|w|] == w }

  predicate HasBlockEnd(s: string) { exists i :: 0 <= i < |s| - 1 && s[i] == '*' && s[i + 1] == '/' }

  /** The word stands alone or with a blank behind it. */
  predicate StartsKeyword(s: string, word: string)
  {
    StartsWith(s, word) && (|s| == |word| || IsWhite(s[|word|]))
  }

  predicate StartsCallable(s: string)
  {
    StartsKeyword(s, "extern") || StartsKeyword(s, "node") || StartsKeyword(s, "program")
  }

  predicate StartsDeclaration(s: string)
  {
    || StartsKeyword(s, "import") || StartsKeyword(s, "type") || StartsKeyword(s, "struct") || StartsKeyword(s, "foreign")
    || StartsCallable(s)
  }

  // ---- One line ----

  /**
   * What is known after some lines: `open` is the callable whose body is being read, `top` and `body` are comments
   * that wait for a declaration or a chain, and `comment` is a block comment that has not ended.
   */
  datatype Reader = Reader(
    layout: Layout, next: nat, open: Option<nat>, chain: nat, blank: bool, level: Level,
    top: seq<string>, body: seq<string>, comment: Option<seq<string>>)

  function ChainsOf(d: Decl): seq<Chain>
  {
    match d
    case Node(c) => c.chains
    case Program(c) => c.chains
    case _ => []
  }

  function NoComments(d: Decl): DeclComments { DeclComments([], seq(|ChainsOf(d)|, _ => BARE)) }

  function Start(ds: seq<Decl>): Reader
  {
    Reader(seq(|ds|, i requires 0 <= i < |ds| => NoComments(ds[i])), 0, None, 0, false, BOTTOM, [], [], None)
  }

  predicate IsFlat(l: Level) { l.paren == 0 && l.bracket == 0 }

  /** Comments wait for the next chain of the open callable, or for the next declaration. */
  function Kept(r: Reader, cs: seq<string>): Reader
  {
    if r.open.Some? then r.(body := r.body + cs) else r.(top := r.top + cs)
  }

  function SetLeading(layout: Layout, d: nat, cs: seq<string>): Layout
    requires d < |layout|
  {
    layout[d := layout[d].(leading := layout[d].leading + cs)]
  }

  /** A line at the outermost level that starts a declaration. */
  function Declared(r: Reader, code: string): Reader
  {
    if r.level.brace == 0 && StartsDeclaration(code) && r.next < |r.layout| then
      var named := r.(layout := SetLeading(r.layout, r.next, r.top), top := [], next := r.next + 1);
      if StartsCallable(code) then named.(open := Some(r.next), chain := 0) else named
    else r
  }

  predicate HasChain(layout: Layout, d: nat, i: nat) { d < |layout| && i < |layout[d].chains| }

  function SetChain(layout: Layout, d: nat, i: nat, c: ChainComments): Layout
    requires HasChain(layout, d, i)
  {
    layout[d := layout[d].(chains := layout[d].chains[i := c])]
  }

  /** A chain takes the comments that wait for it. */
  function Taken(r: Reader, remark: Option<string>): Reader
    requires r.open.Some?
  {
    var d, i := r.open.value, r.chain;
    var next := r.(blank := false, chain := i + 1);
    if HasChain(r.layout, d, i) then
      var c := ChainComments(r.blank, r.layout[d].chains[i].leading + r.body, remark);
      next.(layout := SetChain(r.layout, d, i, c), body := [])
    else next
  }

  /** The last chain takes a comment behind one of its other lines. The program drops it; a `keen` reader does not. */
  function Continued(r: Reader, remark: string): Reader
    requires r.open.Some?
  {
    var d := r.open.value;
    if r.chain > 0 && HasChain(r.layout, d, r.chain - 1) then
      r.(layout := SetChain(r.layout, d, r.chain - 1, r.layout[d].chains[r.chain - 1].(trailing := Some(remark))))
    else r
  }

  /** A line of a body. A `keen` reader does not look at parentheses and brackets and drops no comment. */
  function Chained(keen: bool, r: Reader, code: string, remark: Option<string>): Reader
  {
    if r.open.Some? && r.level.brace == 1 && (keen || IsFlat(r.level)) && !StartsWith(code, "->") && !StartsWith(code, "}") then
      Taken(r, remark)
    else if keen && r.open.Some? && remark.Some? then Continued(r, remark.value)
    else r
  }

  /** The end of a line, and of a callable when its last brace is closed. */
  function Closed(r: Reader, after: Level): Reader
  {
    if r.open.Some? && after.brace == 0 then r.(level := after, open := None, blank := false, body := []) else r.(level := after)
  }

  /** A line that starts outside of block comments and with none. */
  function CodeStep(keen: bool, r: Reader, line: string): Reader
  {
    var code, remark := CodeOf(line), RemarkOf(line);
    var text := Trim(code);
    if text == [] then
      if remark.Some? then Kept(r, [remark.value]) else if r.open.Some? then r.(blank := true) else r
    else Closed(Chained(keen, Declared(r, text), text, remark), Depths(r.level, false, false, code))
  }

  function Step(keen: bool, r: Reader, line: string): Reader
  {
    var trimmed := TrimStart(line);
    if r.comment.Some? then
      var lines := r.comment.value + [TrimEnd(line)];
      if HasBlockEnd(line) then Kept(r.(comment := None), lines) else r.(comment := Some(lines))
    else if StartsWith(trimmed, "/*") then
      var first := TrimStart(TrimEnd(line));
      if HasBlockEnd(trimmed) then Kept(r, [first]) else r.(comment := Some([first]))
    else CodeStep(keen, r, line)
  }

  // ---- All lines ----

  function LineLength(s: string): (n: nat)
    ensures n <= |s| && (n < |s| ==> s[n] == '\n')
  {
    if s == [] || s[0] == '\n' then 0 else 1 + LineLength(s[1..])
  }

  function AfterLine(s: string): (rest: string)
    ensures s != [] ==> |rest| < |s|
  {
    var n := LineLength(s);
    if n < |s| then s[n + 1..] else []
  }

  function ReadLines(keen: bool, r: Reader, s: string): Reader
    decreases |s|
  {
    if s == [] then r else ReadLines(keen, Step(keen, r, s[..LineLength(s)]), AfterLine(s))
  }

  /** Comments left over go to the next declaration, if there is one. */
  function Finish(r: Reader): Layout
  {
    if r.next < |r.layout| then SetLeading(r.layout, r.next, r.top) else r.layout
  }

  /** The comments and blank lines of a text, for each of the declarations in it. */
  function ReadLayout(s: string, ds: seq<Decl>): Layout { Finish(ReadLines(false, Start(ds), s)) }

  method TakeLine(s: string) returns (line: string, rest: string)
    requires s != []
    ensures line == s[..LineLength(s)] && rest == AfterLine(s)
  {
    var n := 0;
    while n < |s| && s[n] != '\n'
      invariant n <= |s| && n + LineLength(s[n..]) == LineLength(s)
    {
      assert s[n..][1..] == s[n + 1..];
      n := n + 1;
    }
    assert LineLength(s[n..]) == 0;
    line := s[..n];
    rest := if n < |s| then s[n + 1..] else [];
  }

  /** The loop over lines. */
  method Collect(source: string, m: Module) returns (layout: Layout)
    ensures layout == ReadLayout(source, m.declarations)
  {
    layout := [];
    for i := 0 to |m.declarations|
      invariant |layout| == i
      invariant forall j :: 0 <= j < i ==> layout[j] == NoComments(m.declarations[j])
    {
      layout := layout + [NoComments(m.declarations[i])];
    }
    assert layout == Start(m.declarations).layout;

    var reader := Start(m.declarations).(layout := layout);
    var lines := source;
    while lines != []
      invariant ReadLines(false, reader, lines) == ReadLines(false, Start(m.declarations), source)
      decreases |lines|
    {
      var line;
      line, lines := TakeLine(lines);
      reader := CollectLine(reader, line);
    }
    layout := reader.layout;
    if reader.next < |layout| {
      layout := SetLeading(layout, reader.next, reader.top);
    }
  }

  /** One round of the loop. */
  method CollectLine(reader: Reader, line: string) returns (after: Reader)
    ensures after == Step(false, reader, line)
  {
    after := reader;
    if after.comment.Some? {
      var lines := after.comment.value + [TrimEnd(line)];
      if HasBlockEnd(line) {
        after := Keep(after.(comment := None), lines);
      } else {
        after := after.(comment := Some(lines));
      }
      return;
    }

    var trimmed := TrimStart(line);
    if StartsWith(trimmed, "/*") {
      var comment := TrimStart(TrimEnd(line));
      if HasBlockEnd(trimmed) {
        after := Keep(after, [comment]);
      } else {
        after := after.(comment := Some([comment]));
      }
      return;
    }
    after := CollectCode(after, line);
  }

  method Keep(reader: Reader, comments: seq<string>) returns (after: Reader)
    ensures after == Kept(reader, comments)
  {
    if reader.open.Some? {
      return reader.(body := reader.body + comments);
    }
    return reader.(top := reader.top + comments);
  }

  method CollectCode(reader: Reader, line: string) returns (after: Reader)
    ensures after == CodeStep(false, reader, line)
  {
    after := reader;
    var code, lineComment := SplitLineComment(line);
    var text := Trim(code);
    if text == [] {
      if lineComment.Some? {
        after := Keep(after, [lineComment.value]);
      } else if after.open.Some? {
        after := after.(blank := true);
      }
      return;
    }

    if after.level.brace == 0 && StartsDeclaration(text) && after.next < |after.layout| {
      var d := after.next;
      after := after.(layout := SetLeading(after.layout, d, after.top), top := [], next := d + 1);
      if StartsCallable(text) {
        after := after.(open := Some(d), chain := 0);
      }
    }

    var startsChain :=
      after.open.Some? && after.level.brace == 1 && IsFlat(after.level) && !StartsWith(text, "->")
        && !StartsWith(text, "}");
    if startsChain {
      var d, i := after.open.value, after.chain;
      if d < |after.layout| && i < |after.layout[d].chains| {
        var c := ChainComments(after.blank, after.layout[d].chains[i].leading + after.body, lineComment);
        after := after.(layout := SetChain(after.layout, d, i, c), body := []);
      }
      after := after.(blank := false, chain := i + 1);
    }

    var level := UpdateDepths(code, after.level);
    after := after.(level := level);
    if after.open.Some? && level.brace == 0 {
      after := after.(open := None, body := [], blank := false);
    }
  }
}
