/** References to nodes as one string, src/node_ref.rs: the text and the structure say the same. */
module NodeRefs {
  import opened Ast
  import opened Monomorphizing
  import Tokens
  import WellFormed

  // ---- Text ----

  function JoinArgs(args: seq<string>): string
  {
    if args == [] then "" else if |args| == 1 then args[0] else args[0] + "," + JoinArgs(args[1..])
  }

  function FormatStaticNodeRef(base: string, args: seq<string>): string
  {
    if args == [] then base else base + "<" + JoinArgs(args) + ">"
  }

  function IndexOfChar(s: string, c: char): (n: nat)
    ensures n <= |s|
    ensures n < |s| ==> s[n] == c
    ensures forall i :: 0 <= i < n ==> s[i] != c
  {
    if s == "" || s[0] == c then 0 else 1 + IndexOfChar(s[1..], c)
  }

  predicate IsWhite(c: char) { c == ' ' || '\t' <= c <= '\r' }

  function Trim(s: string): string
    decreases |s|
  {
    if s != "" && IsWhite(s[0]) then Trim(s[1..])
    else if s != "" && IsWhite(s[|s| - 1]) then Trim(s[..|s| - 1])
    else s
  }

  function SplitArgs(s: string): seq<string>
    decreases |s|
  {
    var n := IndexOfChar(s, ',');
    if n == |s| then [Trim(s)] else [Trim(s[..n])] + SplitArgs(s[n + 1..])
  }

  datatype StaticNodeRef = StaticNodeRef(base: string, args: seq<string>)

  function ParseStaticNodeRef(text: string): StaticNodeRef
  {
    var less := IndexOfChar(text, '<');
    if less == |text| || text[|text| - 1] != '>' then StaticNodeRef(text, [])
    else
      var inside := text[less + 1..|text| - 1];
      StaticNodeRef(text[..less], if Trim(inside) == "" then [] else SplitArgs(inside))
  }

  /** A dotted name: nothing that separates arguments. */
  predicate IsNameText(s: string) { s != "" && forall i :: 0 <= i < |s| ==> Tokens.IsWordChar(s[i]) || s[i] == '.' }

  lemma TrimKeeps(s: string)
    requires s != "" && !IsWhite(s[0]) && !IsWhite(s[|s| - 1])
    ensures Trim(s) == s
  {}

  lemma IndexIs(s: string, c: char, n: nat)
    requires n <= |s| && (n < |s| ==> s[n] == c) && forall i :: 0 <= i < n ==> s[i] != c
    ensures IndexOfChar(s, c) == n
  {}

  predicate HasSolidEnds(s: string) { s != "" && !IsWhite(s[0]) && !IsWhite(s[|s| - 1]) }

  lemma NameIsSolid(s: string)
    requires IsNameText(s)
    ensures HasSolidEnds(s) && Trim(s) == s && forall i :: 0 <= i < |s| ==> s[i] != ',' && s[i] != '<'
  {
    assert Tokens.IsWordChar(s[0]) || s[0] == '.';
    assert Tokens.IsWordChar(s[|s| - 1]) || s[|s| - 1] == '.';
  }

  lemma SplitCons(first: string, more: string)
    requires IsNameText(first)
    ensures SplitArgs(first + "," + more) == [first] + SplitArgs(more)
  {
    var s := first + "," + more;
    NameIsSolid(first);
    IndexIs(s, ',', |first|);
    assert s[..|first|] == first && s[|first| + 1..] == more;
  }

  lemma SplitOne(first: string)
    requires IsNameText(first)
    ensures SplitArgs(first) == [first]
  {
    NameIsSolid(first);
    IndexIs(first, ',', |first|);
  }

  lemma {:induction false} ArgsSplit(args: seq<string>)
    requires args != [] && forall i :: 0 <= i < |args| ==> IsNameText(args[i])
    ensures SplitArgs(JoinArgs(args)) == args && HasSolidEnds(JoinArgs(args))
  {
    hide SplitArgs, IsNameText;
    NameIsSolid(args[0]);
    if |args| == 1 {
      SplitOne(args[0]);
    } else {
      var more := JoinArgs(args[1..]);
      ArgsSplit(args[1..]);
      SplitCons(args[0], more);
      assert args == [args[0]] + args[1..];
      var s := args[0] + "," + more;
      assert s[0] == args[0][0] && s[|s| - 1] == more[|more| - 1];
    }
  }

  lemma BracketsFound(base: string, inside: string)
    requires IsNameText(base)
    ensures
      var text := base + "<" + inside + ">";
      && IndexOfChar(text, '<') == |base| && text[|text| - 1] == '>'
      && text[..|base|] == base && text[|base| + 1..|text| - 1] == inside
  {
    NameIsSolid(base);
    IndexIs(base + "<" + inside + ">", '<', |base|);
  }

  /** Reading a formatted reference gives it back. */
  lemma RefRoundTrip(base: string, args: seq<string>)
    requires IsNameText(base) && forall i :: 0 <= i < |args| ==> IsNameText(args[i])
    ensures ParseStaticNodeRef(FormatStaticNodeRef(base, args)) == StaticNodeRef(base, args)
  {
    hide SplitArgs, JoinArgs, Trim, IndexOfChar, IsNameText;
    if args == [] {
      NameIsSolid(base);
      IndexIs(base, '<', |base|);
    } else {
      ArgsSplit(args);
      BracketsFound(base, JoinArgs(args));
      TrimKeeps(JoinArgs(args));
    }
  }

  // ---- Structure ----

  function DottedTexts(qs: seq<QName>): (r: seq<string>)
    ensures |r| == |qs| && forall i :: 0 <= i < |qs| ==> r[i] == DottedText(qs[i])
  {
    if qs == [] then [] else [DottedText(qs[0])] + DottedTexts(qs[1..])
  }

  function RefText(r: NodeRef): string { FormatStaticNodeRef(DottedText(r.base), DottedTexts(r.args)) }

  lemma {:induction false} DottedTextIsName(q: QName)
    requires WellFormed.WfQName(q)
    ensures IsNameText(DottedText(q))
  {
    assert Tokens.IsIdent(q[0]);
    if |q| > 1 { DottedTextIsName(q[1..]); }
  }

  lemma {:induction false} DottedTextIsInjective(p: QName, q: QName)
    requires WellFormed.WfQName(p) && WellFormed.WfQName(q) && DottedText(p) == DottedText(q)
    ensures p == q
  {
    assert Tokens.IsIdent(p[0]) && Tokens.IsIdent(q[0]);
    FirstSegment(p);
    FirstSegment(q);
    assert p[0] == DottedText(p)[..|p[0]|] && q[0] == DottedText(q)[..|q[0]|];
    if |p| > 1 && |q| > 1 {
      assert DottedText(p)[|p[0]| + 1..] == DottedText(p[1..]) && DottedText(q)[|q[0]| + 1..] == DottedText(q[1..]);
      DottedTextIsInjective(p[1..], q[1..]);
      assert p == [p[0]] + p[1..] && q == [q[0]] + q[1..];
    } else {
      assert |p| == 1 ==> |DottedText(p)| == |p[0]|;
      assert |q| == 1 ==> |DottedText(q)| == |q[0]|;
    }
  }

  lemma FirstSegment(q: QName)
    requires WellFormed.WfQName(q)
    ensures IndexOfChar(DottedText(q), '.') == |q[0]|
  {
    assert Tokens.IsIdent(q[0]);
    IndexIs(DottedText(q), '.', |q[0]|);
  }

  /** References that differ have different texts, so keeping the structure loses nothing. */
  lemma RefTextIsInjective(r: NodeRef, s: NodeRef)
    requires WellFormed.WfRef(r) && WellFormed.WfRef(s) && RefText(r) == RefText(s)
    ensures r == s
  {
    forall q | WellFormed.WfQName(q)
      ensures IsNameText(DottedText(q))
    {
      DottedTextIsName(q);
    }
    RefRoundTrip(DottedText(r.base), DottedTexts(r.args));
    RefRoundTrip(DottedText(s.base), DottedTexts(s.args));
    DottedTextIsInjective(r.base, s.base);
    forall i | 0 <= i < |r.args|
      ensures r.args[i] == s.args[i]
    {
      assert DottedText(r.args[i]) == DottedTexts(s.args)[i];
      DottedTextIsInjective(r.args[i], s.args[i]);
    }
  }
}
