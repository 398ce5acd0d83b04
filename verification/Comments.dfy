/** The comments that the formatter of src/fmt.rs keeps, as it collects and as it writes them. */
module Comments {
  import opened Tokens
  import opened Ast

  // ---- Blanks at the ends of a text ----

  /** The characters that str::trim removes: those with the White_Space property of Unicode. */
  predicate IsWhite(c: char)
  {
    || '\t' <= c <= '\r' || c == ' ' || c == '\U{85}' || c == '\U{A0}' || c == '\U{1680}' || '\U{2000}' <= c <= '\U{200A}'
    || c == '\U{2028}' || c == '\U{2029}' || c == '\U{202F}' || c == '\U{205F}' || c == '\U{3000}'
  }

  predicate AllWhite(s: string) { forall i :: 0 <= i < |s| ==> IsWhite(s[i]) }

  function TrimStart(s: string): (r: string)
    ensures |r| <= |s| && (r != [] ==> !IsWhite(r[0]))
  {
    if s != [] && IsWhite(s[0]) then TrimStart(s[1..]) else s
  }

  function TrimEnd(s: string): (r: string)
    ensures |r| <= |s| && r == s[..|r|] && (r != [] ==> !IsWhite(r[|r| - 1]))
  {
    if s != [] && IsWhite(s[|s| - 1]) then TrimEnd(s[..|s| - 1]) else s
  }

  // ---- What is kept ----

  /** The comments of a chain, and whether a blank line was before it. */
  datatype ChainComments = ChainComments(blank: bool, leading: seq<string>, trailing: Option<string>)

  /** The comments of a declaration and of the chains in it. */
  datatype DeclComments = DeclComments(leading: seq<string>, chains: seq<ChainComments>)

  type Layout = seq<DeclComments>

  const BARE := ChainComments(false, [], None)

  function ChainAt(cs: seq<ChainComments>, i: nat): ChainComments { if i < |cs| then cs[i] else BARE }

  function DeclAt(layout: Layout, i: nat): DeclComments { if i < |layout| then layout[i] else DeclComments([], []) }

  // ---- How it is written ----

  /** write_comments: one line for each. */
  function CommentLines(indent: string, cs: seq<string>): string
  {
    if cs == [] then "" else indent + TrimStart(cs[0]) + "\n" + CommentLines(indent, cs[1..])
  }

  /** A comment behind code starts with `#` and is trimmed at its end. */
  predicate IsHash(c: string) { c != [] && c[0] == '#' && '\n' !in c && !IsWhite(c[|c| - 1]) }

  predicate IsTrailing(c: Option<string>) { c.Some? ==> IsHash(c.value) }
}
