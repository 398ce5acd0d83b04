/** struct Formatter of src/fmt.rs: it appends lines to its output. */
module Formatter {
  import opened Tokens
  import opened Ast
  import opened Rendering
  import opened Comments
  import opened Formatting
  import opened FormatAppend

  // ---- Type names ----

  /** The text of a type as the parser keeps it. */
  function TypeString(ty: TypeText): string
  {
    if ty == [] then [] else TokenText(ty[0]) + TypeString(ty[1..])
  }

  /** Tokens that take part in types. */
  predicate TypeTokensOnly(ty: TypeText)
  {
    forall i :: 0 <= i < |ty| ==> Lexable(ty[i]) && (ty[i].Ident? || ty[i].Int? || IsPunctuation(ty[i]))
  }

  function SkipSpaces(s: string): (r: string)
    ensures |r| <= |s|
  {
    if s != [] && s[0] == ' ' then SkipSpaces(s[1..]) else s
  }

  function TrimSpaces(s: string): string
  {
    if s != [] && s[|s| - 1] == ' ' then TrimSpaces(s[..|s| - 1]) else s
  }

  /** format_type_name when it has written `out` and still has to read `s`. */
  function TypeName(out: string, s: string): string
    decreases |s|
  {
    if s == [] then TrimSpaces(out)
    else if s[0] == ',' then TypeName(out + ", ", SkipSpaces(s[1..]))
    else if s[0] == '|' then TypeName(TrimSpaces(out) + " | ", SkipSpaces(s[1..]))
    else TypeName(out + [s[0]], s[1..])
  }

  method TrimTrailingSpaces(text: string) returns (r: string)
    ensures r == TrimSpaces(text)
  {
    r := text;
    while r != [] && r[|r| - 1] == ' '
      invariant TrimSpaces(r) == TrimSpaces(text)
    {
      r := r[..|r| - 1];
    }
  }

  method FormatTypeName(ty: string) returns (output: string)
    ensures output == TypeName("", ty)
  {
    output := "";
    var i := 0;
    while i < |ty|
      invariant i <= |ty|
      invariant TypeName(output, ty[i..]) == TypeName("", ty)
    {
      var ch := ty[i];
      ghost var s := ty[i..];
      i := i + 1;
      assert s[1..] == ty[i..];
      if ch == ',' || ch == '|' {
        if ch == ',' {
          output := output + ", ";
        } else {
          output := TrimTrailingSpaces(output);
          output := output + " | ";
        }
        while i < |ty| && ty[i] == ' '
          invariant i <= |ty| && |s| > |ty| - i
          invariant SkipSpaces(ty[i..]) == SkipSpaces(s[1..])
        {
          i := i + 1;
        }
      } else {
        output := output + [ch];
      }
    }
    output := TrimTrailingSpaces(output);
  }

  predicate NoSpaceAtEnd(s: string) { s == [] || s[|s| - 1] != ' ' }

  lemma PlainText(t: Token)
    requires Lexable(t) && (t.Ident? || t.Int? || IsPunctuation(t)) && t != Comma && t != Pipe
    ensures TokenText(t) != [] && NoSpaceAtEnd(TokenText(t))
    ensures forall i :: 0 <= i < |TokenText(t)| ==> TokenText(t)[i] != ',' && TokenText(t)[i] != '|'
    ensures TokenText(t)[0] != ' '
  {
  }

  lemma {:induction false} CopyPlain(out: string, text: string, s: string)
    requires forall i :: 0 <= i < |text| ==> text[i] != ',' && text[i] != '|'
    ensures TypeName(out, text + s) == TypeName(out + text, s)
    decreases |text|
  {
    if text == [] {
      assert text + s == s && out + text == out;
    } else {
      assert (text + s)[1..] == text[1..] + s;
      CopyPlain(out + [text[0]], text[1..], s);
      assert out + [text[0]] + text[1..] == out + text;
    }
  }

  /** The blank that a bar puts before itself, or the one already there. */
  function Lead(t: Token, blank: string): string { if t == Pipe then " " else blank }

  /** The blank behind a comma or a bar. */
  function Trail(t: Token): string { if t == Comma || t == Pipe then " " else "" }

  lemma TrimBlank(out: string, blank: string)
    requires NoSpaceAtEnd(out) && (blank == "" || blank == " ")
    ensures TrimSpaces(out + blank) == out
  {
    if blank == " " {
      assert (out + blank)[..|out|] == out;
    } else {
      assert out + blank == out;
    }
  }

  lemma CommaStep(out: string, s: string)
    ensures TypeName(out, "," + s) == TypeName(out + ", ", SkipSpaces(s))
  {
    assert ("," + s)[1..] == s;
  }

  lemma PipeStep(out: string, s: string)
    ensures TypeName(out, "|" + s) == TypeName(TrimSpaces(out) + " | ", SkipSpaces(s))
  {
    assert ("|" + s)[1..] == s;
  }

  lemma OneToken(out: string, blank: string, t: Token, s: string)
    requires TypeTokensOnly([t]) && NoSpaceAtEnd(out) && (blank == "" || blank == " ") && SkipSpaces(s) == s
    ensures
      var out1 := out + (Lead(t, blank) + TokenText(t));
      TypeName(out + blank, TokenText(t) + s) == TypeName(out1 + Trail(t), s) && NoSpaceAtEnd(out1)
  {
    hide TypeName, TrimSpaces, TypeTokensOnly;
    if t == Comma {
      CommaStep(out + blank, s);
      hide SkipSpaces;
      assert out + blank + ", " == out + (blank + ",") + " ";
    } else if t == Pipe {
      PipeToken(out, blank, s);
    } else {
      PlainToken(out, blank, t, s);
    }
  }

  lemma PipeToken(out: string, blank: string, s: string)
    requires NoSpaceAtEnd(out) && (blank == "" || blank == " ") && SkipSpaces(s) == s
    ensures
      var out1 := out + (" " + "|");
      TypeName(out + blank, "|" + s) == TypeName(out1 + " ", s) && NoSpaceAtEnd(out1)
  {
    hide TypeName, TrimSpaces;
    PipeStep(out + blank, s);
    hide SkipSpaces;
    TrimBlank(out, blank);
    assert out + " | " == out + (" " + "|") + " ";
  }

  lemma PlainToken(out: string, blank: string, t: Token, s: string)
    requires TypeTokensOnly([t]) && t != Comma && t != Pipe
    ensures
      var out1 := out + (blank + TokenText(t));
      TypeName(out + blank, TokenText(t) + s) == TypeName(out1 + "", s) && NoSpaceAtEnd(out1)
  {
    assert [t][0] == t;
    hide TypeName, IsIdent, IsI64, TokenText;
    PlainText(t);
    CopyPlain(out + blank, TokenText(t), s);
    assert out + blank + TokenText(t) == out + (blank + TokenText(t)) + "";
  }

  /** What is left to write of a type after `out`, with `blank` behind it that may be taken back. */
  function Remaining(blank: string, ty: TypeText): string
  {
    if ty == [] then "" else Lead(ty[0], blank) + Render(FmtTypeTail(ty, End))
  }

  lemma TailText(ty: TypeText)
    requires ty != []
    ensures Render(FmtTypeTail(ty, End)) == TokenText(ty[0]) + Remaining(Trail(ty[0]), ty[1..])
  {
    if |ty| > 1 {
      var tail := FmtTypeTail(ty[1..], End);
      assert ty[1..][0] == ty[1];
      if !BlankBetween(ty[0], ty[1]) {
        assert "" + Render(tail) == Render(tail);
      }
    }
  }

  lemma Parts(ty: TypeText)
    requires ty != [] && TypeTokensOnly(ty)
    ensures TypeTokensOnly([ty[0]]) && TypeTokensOnly(ty[1..])
    ensures TypeString(ty) == TokenText(ty[0]) + TypeString(ty[1..])
  {
    assert [ty[0]][0] == ty[0];
  }

  lemma Regroup(a: string, b: string, c: string, d: string)
    ensures a + (b + c) + d == a + (b + (c + d))
  {
  }

  lemma {:induction false} TypeNameIs(out: string, blank: string, ty: TypeText)
    requires TypeTokensOnly(ty) && NoSpaceAtEnd(out) && (blank == "" || blank == " ")
    ensures TypeName(out + blank, TypeString(ty)) == out + Remaining(blank, ty)
    decreases |ty|
  {
    if ty == [] {
      TrimBlank(out, blank);
      assert out + "" == out;
    } else {
      hide Render, TypeName, TypeString, TypeTokensOnly, TokenText, Lead, FmtTypeTail, NoSpaceAtEnd;
      var t, rest := ty[0], ty[1..];
      var out1 := out + (Lead(t, blank) + TokenText(t));
      Parts(ty);
      StartsPlain(rest);
      OneToken(out, blank, t, TypeString(rest));
      TypeNameIs(out1, Trail(t), rest);
      TailText(ty);
      Regroup(out, Lead(t, blank), TokenText(t), Remaining(Trail(t), rest));
    }
  }

  lemma StartsPlain(ty: TypeText)
    requires TypeTokensOnly(ty)
    ensures SkipSpaces(TypeString(ty)) == TypeString(ty)
  {
    if ty != [] {
      if ty[0] != Comma && ty[0] != Pipe {
        PlainText(ty[0]);
      }
      assert TypeString(ty)[0] == TokenText(ty[0])[0];
    }
  }

  /** The loop over characters lays a type out as the formatted text does. */
  lemma TypeNameLaidOut(ty: TypeText)
    requires TypeTokensOnly(ty)
    ensures TypeName("", TypeString(ty)) == Render(FmtType(ty, End))
  {
    TypeNameIs("", "", ty);
    assert "" + "" == "";
    assert "" + Remaining("", ty) == Remaining("", ty);
    if ty != [] {
      var tail := Render(FmtTypeTail(ty, End));
      assert "" + tail == tail;
    }
  }

  // ---- Chain groups ----

  /** The texts of the parts of a chain. */
  function PartTexts(c: Chain): (parts: seq<string>)
    ensures |parts| == |c.stages| + 1
    ensures forall j :: 0 <= j <= |c.stages| ==> parts[j] == Render(FmtPart(c, j, End))
  {
    seq(|c.stages| + 1, j requires 0 <= j <= |c.stages| => Render(FmtPart(c, j, End)))
  }

  /** A pending chain and the comment behind it. */
  datatype FormattedChain = FormattedChain(parts: seq<string>, trailing: Option<string>)

  /** The pending chains, formatted. */
  ghost predicate Pending(group: seq<FormattedChain>, rows: seq<Row>)
  {
    && |group| == |rows|
    && forall i :: 0 <= i < |group| ==> group[i].parts == PartTexts(rows[i].chain) && group[i].trailing == rows[i].trailing
  }

  function Max(a: nat, b: nat): nat { if a > b then a else b }

  /** What a chain contributes to the width of a column. */
  function PartWidth(c: Chain, j: nat): nat
  {
    if j < |c.stages| then Width(FmtPart(c, j, End)) else 0
  }

  lemma {:induction false} ColumnWidthSnoc(rows: seq<Row>, row: Row, j: nat)
    ensures ColumnWidth(rows + [row], j) == Max(ColumnWidth(rows, j), PartWidth(row.chain, j))
  {
    hide FmtPart, Width;
    if rows == [] {
      assert rows + [row] == [row] && [row][1..] == [];
      assert ColumnWidth([], j) == 0;
    } else {
      assert (rows + [row])[1..] == rows[1..] + [row];
      ColumnWidthSnoc(rows[1..], row, j);
    }
  }

  /** chain_group_widths: the widths of all columns, as far as any chain has an arrow. */
  method ChainGroupWidths(group: seq<FormattedChain>, ghost rows: seq<Row>) returns (widths: seq<nat>)
    requires Pending(group, rows)
    ensures forall i :: 0 <= i < |rows| ==> |rows[i].chain.stages| <= |widths|
    ensures forall j :: 0 <= j < |widths| ==> widths[j] == ColumnWidth(rows, j)
  {
    var arrows: nat := 0;
    for i := 0 to |group|
      invariant forall k :: 0 <= k < i ==> |rows[k].chain.stages| <= arrows
    {
      arrows := Max(arrows, |group[i].parts| - 1);
    }
    widths := seq(arrows, _ => 0);
    for i := 0 to |group|
      invariant |widths| == arrows
      invariant forall j :: 0 <= j < arrows ==> widths[j] == ColumnWidth(rows[..i], j)
    {
      var parts := group[i].parts;
      ghost var before := widths;
      for index := 0 to |parts| - 1
        invariant |widths| == arrows
        invariant forall j :: 0 <= j < arrows ==>
          widths[j] == if j < index then Max(before[j], |parts[j]|) else before[j]
      {
        widths := widths[index := Max(widths[index], |parts[index]|)];
      }
      assert rows[..i + 1] == rows[..i] + [rows[i]];
      forall j | 0 <= j < arrows ensures widths[j] == ColumnWidth(rows[..i + 1], j) {
        ColumnWidthSnoc(rows[..i], rows[i], j);
      }
    }
    assert rows[..|group|] == rows;
  }

  /** format_aligned_chain: the parts of a chain, each but the last padded to its column. */
  method FormatAlignedChain(parts: seq<string>, widths: seq<nat>, ghost c: Chain, ghost group: seq<Row>)
    returns (output: string)
    requires parts == PartTexts(c) && |c.stages| <= |widths|
    requires forall j :: 0 <= j < |widths| ==> widths[j] == ColumnWidth(group, j)
    ensures output == Render(FmtAligned(c, 0, group, End))
  {
    hide Render, FmtAligned, FmtPart, ColumnWidth;
    output := "";
    var index := 0;
    while index < |parts| - 1
      invariant index <= |parts| - 1
      invariant output + Render(FmtAligned(c, index, group, End)) == Render(FmtAligned(c, 0, group, End))
    {
      var part := parts[index];
      var pad := if widths[index] > |part| then widths[index] - |part| else 0;
      AlignedStep(c, index, group);
      ghost var before := output;
      output := output + part + Spaces(pad) + " -> ";
      index := index + 1;
      ghost var next := Render(FmtAligned(c, index, group, End));
      assert output + next == before + (part + Spaces(pad) + " -> " + next);
    }
    output := output + parts[index];
    AlignedLast(c, group);
  }

  lemma AlignedLast(c: Chain, group: seq<Row>)
    ensures FmtAligned(c, |c.stages|, group, End) == FmtPart(c, |c.stages|, End)
  {}

  lemma AlignedStep(c: Chain, j: nat, group: seq<Row>)
    requires j < |c.stages|
    ensures
      var part := Render(FmtPart(c, j, End));
      var pad := if ColumnWidth(group, j) > |part| then ColumnWidth(group, j) - |part| else 0;
      Render(FmtAligned(c, j, group, End))
      == part + Spaces(pad) + " -> " + Render(FmtAligned(c, j + 1, group, End))
  {
    hide FmtPart, ColumnWidth;
    var part := Render(FmtPart(c, j, End));
    var pad := if ColumnWidth(group, j) > |part| then ColumnWidth(group, j) - |part| else 0;
    var next := FmtAligned(c, j + 1, group, End);
    var after := W(Spaces(pad) + " ", T(Arrow, W(" ", next)));
    assert FmtAligned(c, j, group, End) == FmtPart(c, j, after);
    PartAppend(c, j, End, after);
    assert Append(End, after) == after;
    RenderAppend(FmtPart(c, j, End), after);
    ArrowText(part, Spaces(pad), next);
  }

  lemma ArrowText(part: string, blank: string, next: Text)
    ensures part + Render(W(blank + " ", T(Arrow, W(" ", next)))) == part + blank + " -> " + Render(next)
  {
    var rest := Render(next);
    assert Render(W(" ", next)) == " " + rest;
    assert Render(T(Arrow, W(" ", next))) == "->" + (" " + rest);
    assert " " + ("->" + (" " + rest)) == " -> " + rest;
  }

  lemma LineWritten(before: string, t: Text, k: Text)
    ensures before + Render(Append(t, NewLine(k))) == before + (Render(t) + "\n") + Render(k)
  {
    RenderAppend(t, NewLine(k));
    assert Render(NewLine(k)) == "\n" + Render(k);
    hide Render, Append;
  }

  lemma TrailingWritten(before: string, t: Text, c: string, k: Text)
    ensures before + Render(Append(t, LineEnd(Some(c), k))) == before + (Render(t) + "  " + c + "\n") + Render(k)
  {
    var end := "  " + c + "\n";
    RenderAppend(t, LineEnd(Some(c), k));
    assert Render(LineEnd(Some(c), k)) == end + Render(k);
    hide Render, Append;
    EndOfLine(Render(t), c);
    Whole(before, Render(t), end, Render(k));
  }

  lemma EndOfLine(a: string, c: string)
    ensures a + ("  " + c + "\n") == a + "  " + c + "\n"
  {}

  lemma Whole(before: string, a: string, b: string, k: string)
    ensures before + (a + (b + k)) == before + (a + b) + k
  {}

  lemma CommentStep(before: string, indent: string, cs: seq<string>, i: nat)
    requires i < |cs|
    ensures before + CommentLines(indent, cs[i..])
         == before + (indent + TrimStart(cs[i]) + "\n") + CommentLines(indent, cs[i + 1..])
  {
    assert cs[i..][0] == cs[i] && cs[i..][1..] == cs[i + 1..];
    hide TrimStart;
    Whole(before, indent + TrimStart(cs[i]), "\n", CommentLines(indent, cs[i + 1..]));
    Same(indent + TrimStart(cs[i]), CommentLines(indent, cs[i + 1..]));
  }

  lemma Same(a: string, k: string)
    ensures a + "\n" + k == a + ("\n" + k)
  {}

  lemma RemarksWritten(before: string, acc: Text, indent: string, cs: seq<string>)
    requires before == Render(acc)
    ensures Render(Append(acc, Remarks(indent, cs))) == before + CommentLines(indent, cs)
  {
    RenderAppend(acc, Remarks(indent, cs));
    assert Render(Remarks(indent, cs)) == CommentLines(indent, cs);
  }

  // ---- The class ----

  class Formatter {
    const comments: Layout
    var output: string

    constructor (comments: Layout)
      ensures this.comments == comments && output == ""
    {
      this.comments := comments;
      output := "";
    }

    method Line(text: string)
      modifies this`output
      ensures output == old(output) + (text + "\n")
    {
      output := output + text;
      output := output + "\n";
    }

    method WriteBlankLine(ghost acc: Text)
      requires output == Render(acc)
      modifies this`output
      ensures output == Render(BlankLine(acc))
    {
      if !EndsWithBlankLine(output) {
        output := output + "\n";
        RenderAppend(acc, NewLine(End));
      }
    }

    /** Appends the line `text`; `k` is what is still to be written of `whole`. */
    method Put(text: string, ghost t: Text, ghost k: Text, ghost whole: string)
      requires text == Render(t) && output + Render(Append(t, NewLine(k))) == whole
      modifies this`output
      ensures output + Render(k) == whole
    {
      hide Render, Append;
      LineWritten(output, t, k);
      Line(text);
    }

    /** The same with a comment behind the text. */
    method PutWith(text: string, trailing: Option<string>, ghost t: Text, ghost k: Text, ghost whole: string)
      requires text == Render(t) && output + Render(Append(t, LineEnd(trailing, k))) == whole
      modifies this`output
      ensures output + Render(k) == whole
    {
      hide Render, Append;
      var line := text;
      match trailing {
        case None => LineWritten(output, t, k);
        case Some(comment) =>
          TrailingWritten(output, t, comment, k);
          line := line + "  " + comment;
      }
      Line(line);
    }

    /** write_comments: each comment on a line of its own. */
    method WriteComments(indent: string, cs: seq<string>, ghost acc: Text)
      requires output == Render(acc)
      modifies this`output
      ensures output == Render(Append(acc, Remarks(indent, cs)))
    {
      RemarksWritten(output, acc, indent, cs);
      hide Render, Append, Remarks, TrimStart;
      ghost var whole := output + CommentLines(indent, cs);
      assert cs[0..] == cs;
      var i := 0;
      while i < |cs|
        invariant i <= |cs|
        invariant output + CommentLines(indent, cs[i..]) == whole
      {
        CommentStep(output, indent, cs, i);
        Line(indent + TrimStart(cs[i]));
        i := i + 1;
      }
      assert CommentLines(indent, cs[|cs|..]) == "" && output + "" == output;
    }

    /** Ends a run of lines. */
    ghost method Done(acc: Text, t: Text, whole: string)
      requires whole == Render(acc) + Render(t) && output + Render(End) == whole
      ensures output == Render(Append(acc, t))
    {
      RenderAppend(acc, t);
      assert output + [] == output;
    }

    // ---- Declarations without chains ----

    method FormatTypeAlias(name: string, ty: TypeText, ghost acc: Text)
      requires output == Render(acc)
      modifies this`output
      ensures output == Render(Append(acc, FmtAlias(name, ty, End)))
    {
      ghost var whole := output + Render(FmtAlias(name, ty, End));
      var t := T(Ident("type"), W(" ", T(Ident(name), W(" ", T(Equal, W(" ", FmtType(ty, End)))))));
      Unfold();
      TypeAppend(ty, End, NewLine(End));
      Put(Render(t), t, End, whole);
      Done(acc, FmtAlias(name, ty, End), whole);
    }

    method FormatStruct(name: string, fields: seq<Port>, ghost acc: Text)
      requires output == Render(acc)
      modifies this`output
      ensures output == Render(Append(acc, FmtStruct(name, fields, End)))
    {
      hide FmtPort;
      ghost var last := T(RBrace, NewLine(End));
      ghost var whole := output + Render(FmtStruct(name, fields, End));
      var t := T(Ident("struct"), W(" ", T(Ident(name), W(" ", T(LBrace, End)))));
      Unfold();
      Put(Render(t), t, FmtStructLines(fields, last), whole);
      var i := 0;
      while i < |fields|
        invariant i <= |fields|
        invariant output + Render(FmtStructLines(fields[i..], last)) == whole
      {
        ghost var rest := FmtStructLines(fields[i + 1..], last);
        assert fields[i..][1..] == fields[i + 1..];
        var line := W(INDENT, FmtPort(fields[i], T(Comma, End)));
        PortAppend(fields[i], T(Comma, End), NewLine(rest));
        Put(Render(line), line, rest, whole);
        i := i + 1;
      }
      Put("}", T(RBrace, End), End, whole);
      Done(acc, FmtStruct(name, fields, End), whole);
    }

    method FormatImport(source: ImportSource, clause: ImportClause, ghost acc: Text)
      requires output == Render(acc)
      modifies this`output
      ensures output == Render(Append(acc, FmtImport(source, clause, End)))
    {
      hide FmtImportHead, FmtInlineImport, FmtItem;
      ghost var whole := output + Render(FmtImport(source, clause, End));
      Unfold();
      match clause {
        case As(alias) =>
          var tail := T(Ident("as"), W(" ", T(Ident(alias), End)));
          var t := FmtImportHead(source, tail);
          ImportHeadAppend(source, tail, NewLine(End));
          Put(Render(t), t, End, whole);
        case Items(items) =>
          var inline := FmtInlineImport(source, items, End);
          if |items| <= MULTILINE_IMPORT_ITEM_LIMIT && |Render(inline)| <= MAX_INLINE_IMPORT_WIDTH {
            InlineImportAppend(source, items, End, NewLine(End));
            Put(Render(inline), inline, End, whole);
          } else {
            FormatImportLines(source, items, whole);
          }
      }
      Done(acc, FmtImport(source, clause, End), whole);
    }

    method FormatImportLines(source: ImportSource, items: seq<ImportItem>, ghost whole: string)
      requires output + Render(FmtImportHead(source, T(LBrace, NewLine(FmtImportLines(items, T(RBrace, NewLine(End))))))) == whole
      modifies this`output
      ensures output + Render(End) == whole
    {
      hide FmtImportHead, FmtItem;
      ghost var last := T(RBrace, NewLine(End));
      Unfold();
      var t := FmtImportHead(source, T(LBrace, End));
      ImportHeadAppend(source, T(LBrace, End), NewLine(FmtImportLines(items, last)));
      Put(Render(t), t, FmtImportLines(items, last), whole);
      var i := 0;
      while i < |items|
        invariant i <= |items|
        invariant output + Render(FmtImportLines(items[i..], last)) == whole
      {
        ghost var rest := FmtImportLines(items[i + 1..], last);
        assert items[i..][1..] == items[i + 1..];
        var line := W(INDENT, FmtItem(items[i], T(Comma, End)));
        ItemAppend(items[i], T(Comma, End), NewLine(rest));
        Put(Render(line), line, rest, whole);
        i := i + 1;
      }
      Put("}", T(RBrace, End), End, whole);
    }

    method FormatForeign(language: ForeignTarget, origin: ForeignSource, nodes: seq<ForeignNode>, ghost acc: Text)
      requires output == Render(acc)
      modifies this`output
      ensures output == Render(Append(acc, FmtForeign(language, origin, nodes, End)))
    {
      hide FmtForeignHead, FmtForeignNode;
      ghost var last := T(RBrace, NewLine(End));
      ghost var whole := output + Render(FmtForeign(language, origin, nodes, End));
      Unfold();
      var t := T(Ident("foreign"), W(" ", FmtForeignHead(language, origin, W(" ", T(LBrace, End)))));
      ForeignHeadAppend(language, origin, W(" ", T(LBrace, End)), NewLine(FmtForeignLines(nodes, last)));
      Put(Render(t), t, FmtForeignLines(nodes, last), whole);
      var i := 0;
      while i < |nodes|
        invariant i <= |nodes|
        invariant output + Render(FmtForeignLines(nodes[i..], last)) == whole
      {
        ghost var rest := FmtForeignLines(nodes[i + 1..], last);
        assert nodes[i..][1..] == nodes[i + 1..];
        var line := W(INDENT, FmtForeignNode(nodes[i], End));
        ForeignNodeAppend(nodes[i], End, NewLine(rest));
        Put(Render(line), line, rest, whole);
        i := i + 1;
      }
      Put("}", T(RBrace, End), End, whole);
      Done(acc, FmtForeign(language, origin, nodes, End), whole);
    }

    // ---- Chains ----

    /** flush_chain_group: writes the pending chains aligned among themselves and forgets them. */
    method FlushChainGroup(group: seq<FormattedChain>, ghost rows: seq<Row>, ghost acc: Text)
      returns (emptied: seq<FormattedChain>)
      requires Pending(group, rows) && output == Render(acc)
      modifies this`output
      ensures emptied == [] && output == Render(Flush(acc, rows))
    {
      hide FmtAligned, ColumnWidth, PartTexts;
      ghost var whole := output + Render(FmtGroup(rows, rows, End));
      if group != [] {
        var widths := ChainGroupWidths(group, rows);
        var i := 0;
        while i < |group|
          invariant i <= |group|
          invariant output + Render(FmtGroup(rows[i..], rows, End)) == whole
        {
          ghost var row, rest := rows[i], FmtGroup(rows[i + 1..], rows, End);
          assert rows[i..][0] == row && rows[i..][1..] == rows[i + 1..];
          var line := FormatAlignedChain(group[i].parts, widths, row.chain, rows);
          ghost var t := W(INDENT, FmtAligned(row.chain, 0, rows, End));
          Unfold();
          AlignedAppend(row.chain, 0, rows, End, LineEnd(row.trailing, rest));
          PutWith(INDENT + line, group[i].trailing, t, rest, whole);
          i := i + 1;
        }
      }
      Done(acc, FmtGroup(rows, rows, End), whole);
      return [];
    }

    method FormatArms(arms: seq<MatchArm>, ghost k: Text, ghost whole: string)
      requires output + Render(FmtArmLines(arms, k)) == whole
      modifies this`output
      ensures output + Render(k) == whole
    {
      hide FmtArm;
      var i := 0;
      while i < |arms|
        invariant i <= |arms|
        invariant output + Render(FmtArmLines(arms[i..], k)) == whole
      {
        ghost var rest := FmtArmLines(arms[i + 1..], k);
        assert arms[i..][1..] == arms[i + 1..];
        var line := W(INDENT + INDENT, FmtArm(arms[i], End));
        Unfold();
        ArmAppend(arms[i], End, NewLine(rest));
        Put(Render(line), line, rest, whole);
        i := i + 1;
      }
    }

    method FormatStageLines(stages: seq<Stage>, ghost whole: string)
      requires output + Render(FmtStageLines(stages, End)) == whole
      modifies this`output
      ensures output + Render(End) == whole
    {
      hide FmtStage, FmtArmLines;
      var i := 0;
      while i < |stages|
        invariant i <= |stages|
        invariant output + Render(FmtStageLines(stages[i..], End)) == whole
      {
        ghost var rest := FmtStageLines(stages[i + 1..], End);
        assert stages[i..][1..] == stages[i + 1..];
        Unfold();
        match stages[i] {
          case Match(arms) =>
            var first := W(INDENT, T(Arrow, W(" ", T(Ident("match"), W(" ", T(LBrace, End))))));
            ghost var last := W(INDENT, T(RBrace, NewLine(rest)));
            Put(Render(first), first, FmtArmLines(arms, last), whole);
            FormatArms(arms, last, whole);
            Put(Render(W(INDENT, T(RBrace, End))), W(INDENT, T(RBrace, End)), rest, whole);
          case other =>
            var line := W(INDENT, T(Arrow, W(" ", FmtStage(other, End))));
            StageAppend(other, End, NewLine(rest));
            Put(Render(line), line, rest, whole);
        }
        i := i + 1;
      }
    }

    method FormatChainMultiline(c: Chain, trailing: Option<string>, ghost acc: Text)
      requires output == Render(acc)
      modifies this`output
      ensures output == Render(Append(acc, FmtMultilineChain(c, trailing, End)))
    {
      hide FmtLongStruct, FmtEndpoint, FmtStages, FmtStageLines, FmtStage, LineEnd;
      ghost var whole := output + Render(FmtMultilineChain(c, trailing, End));
      if c.source.Struct? && |Render(FmtEndpoint(c.source, End))| > MAX_INLINE_STRUCT_WIDTH {
        FormatLongStruct(c, trailing, whole);
        var n := InlineCount(c.stages);
        FormatStageLines(c.stages[n..], whole);
      } else {
        ghost var lines := FmtStageLines(c.stages, End);
        var first := W(INDENT, FmtEndpoint(c.source, End));
        Unfold();
        EndpointAppend(c.source, End, LineEnd(trailing, lines));
        PutWith(Render(first), trailing, first, lines, whole);
        FormatStageLines(c.stages, whole);
      }
      Done(acc, FmtMultilineChain(c, trailing, End), whole);
    }

    /** The lines of a long struct literal; the last one takes the stages before the first match. */
    method FormatLongStruct(c: Chain, trailing: Option<string>, ghost whole: string)
      requires IsLongStruct(c.source) && output + Render(FmtMultilineChain(c, trailing, End)) == whole
      modifies this`output
      ensures output + Render(FmtStageLines(c.stages[InlineCount(c.stages)..], End)) == whole
    {
      hide FmtField, FmtStages, FmtStageLines, Width, LineEnd;
      var n := InlineCount(c.stages);
      var inline := c.stages[..n];
      ghost var lines := FmtStageLines(c.stages[n..], End);
      ghost var last := W(INDENT, T(RBrace, FmtStages(inline, LineEnd(trailing, lines))));
      var first := W(INDENT, T(Ident(c.source.typeName), W(" ", T(LBrace, End))));
      Unfold();
      Put(Render(first), first, FmtFieldLines(c.source.fields, last), whole);
      FormatFields(c.source.fields, last, whole);
      var closing := W(INDENT, T(RBrace, FmtStages(inline, End)));
      StagesAppend(inline, End, LineEnd(trailing, lines));
      PutWith(Render(closing), trailing, closing, lines, whole);
    }

    method FormatFields(fields: seq<Field>, ghost k: Text, ghost whole: string)
      requires output + Render(FmtFieldLines(fields, k)) == whole
      modifies this`output
      ensures output + Render(k) == whole
    {
      hide FmtField;
      var i := 0;
      while i < |fields|
        invariant i <= |fields|
        invariant output + Render(FmtFieldLines(fields[i..], k)) == whole
      {
        ghost var rest := FmtFieldLines(fields[i + 1..], k);
        assert fields[i..][1..] == fields[i + 1..];
        var comma := if i + 1 == |fields| then End else T(Comma, End);
        var line := W(INDENT + INDENT, FmtField(fields[i], comma));
        Unfold();
        FieldAppend(fields[i], comma, NewLine(rest));
        Put(Render(line), line, rest, whole);
        i := i + 1;
      }
    }

    // ---- Callables and modules ----

    method FormatHeader(kind: Text, c: Callable, ghost acc: Text)
      requires output == Render(acc)
      modifies this`output
      ensures output == Render(Append(acc, FmtHeader(kind, c, End)))
    {
      hide FmtPortOrList, FmtInputs, FmtParams;
      ghost var whole := output + Render(FmtHeader(kind, c, End));
      var brace := W(" ", T(LBrace, End));
      var outputs := FmtPortOrList(c.outputs, brace);
      var arrow := W(" ", T(Arrow, W(" ", outputs)));
      var inputs := FmtInputs(c.inputs, arrow);
      var tail := W(" ", T(Ident(c.name), FmtParams(c.nodeParams, inputs)));
      var t := Append(kind, tail);
      Unfold();
      PortOrListAppend(c.outputs, brace, NewLine(End));
      InputsAppend(c.inputs, arrow, NewLine(End));
      ParamsAppend(c.nodeParams, inputs, NewLine(End));
      AppendAssoc(kind, tail, NewLine(End));
      Put(Render(t), t, End, whole);
      Done(acc, FmtHeader(kind, c, End), whole);
    }

    /** format_callable: the header, the chains in groups and blocks with their comments, and the closing brace. */
    method FormatCallable(kind: Text, c: Callable, comments: seq<ChainComments>, ghost acc: Text)
      requires output == Render(acc)
      modifies this`output
      ensures output == Render(FmtCallable(acc, kind, c, comments))
    {
      hide FmtHeader, Flush, FmtMultilineChain, BlankLine, IsMultiline, PartTexts, Render, Append, Remarks;
      FormatHeader(kind, c, acc);
      ghost var start := Append(acc, FmtHeader(kind, c, End));
      ghost var now, pending := start, [];
      var group := [];
      var index := 0;
      while index < |c.chains|
        invariant index <= |c.chains|
        invariant output == Render(now) && Pending(group, pending)
        invariant FmtBody(now, pending, c.chains, index, comments) == FmtBody(start, [], c.chains, 0, comments)
      {
        var chain, own := c.chains[index], ChainAt(comments, index);
        if own.blank || own.leading != [] {
          group := FlushChainGroup(group, pending, now);
          now := Flush(now, pending);
          pending := [];
          if own.blank && index > 0 {
            WriteBlankLine(now);
            now := BlankLine(now);
          }
          WriteComments(INDENT, own.leading, now);
          now := Append(now, Remarks(INDENT, own.leading));
        }
        if IsMultiline(chain) {
          group := FlushChainGroup(group, pending, now);
          now := Flush(now, pending);
          pending := [];
          FormatChainMultiline(chain, own.trailing, now);
          now := Append(now, FmtMultilineChain(chain, own.trailing, End));
        } else {
          group := group + [FormattedChain(PartTexts(chain), own.trailing)];
          pending := pending + [Row(chain, own.trailing)];
        }
        index := index + 1;
      }
      group := FlushChainGroup(group, pending, now);
      now := Flush(now, pending);
      BraceWritten(now);
      Line("}");
    }

    lemma BraceWritten(t: Text)
      ensures Render(Append(t, T(RBrace, NewLine(End)))) == Render(t) + ("}" + "\n")
    {
      RenderAppend(t, T(RBrace, NewLine(End)));
      assert Render(T(RBrace, NewLine(End))) == "}" + ("\n" + []);
    }

    method FormatDecl(d: Decl, comments: seq<ChainComments>, ghost acc: Text)
      requires output == Render(acc)
      modifies this`output
      ensures output == Render(FmtDecl(acc, d, comments))
    {
      hide FmtAlias, FmtStruct, FmtImport, FmtForeign, FmtCallable;
      match d
      case TypeAlias(n, ty) => FormatTypeAlias(n, ty, acc);
      case StructDecl(n, fields) => FormatStruct(n, fields, acc);
      case Import(source, clause) => FormatImport(source, clause, acc);
      case Foreign(language, origin, nodes) => FormatForeign(language, origin, nodes, acc);
      case Node(c) => FormatCallable(if c.isExtern then EXTERN_NODE else NODE, c, comments, acc);
      case Program(c) => FormatCallable(PROGRAM, c, comments, acc);
    }

    /** format_module on a fresh formatter writes exactly the formatted text. */
    method FormatModule(m: Module) returns (text: string)
      requires output == ""
      modifies this`output
      ensures text == Render(FmtModule(m, comments))
    {
      hide FmtDecl, BlankLine, NeedsBlankBetween, Remarks;
      ghost var acc := End;
      var ds := m.declarations;
      var index := 0;
      while index < |ds|
        invariant index <= |ds| && output == Render(acc)
        invariant FmtDecls(acc, ds, index, comments) == FmtDecls(End, ds, 0, comments)
      {
        ghost var before := acc;
        var own := DeclAt(comments, index);
        if index > 0 && NeedsBlankBetween(ds[index - 1], ds[index]) {
          WriteBlankLine(acc);
          acc := BlankLine(acc);
        }
        WriteComments("", own.leading, acc);
        acc := Between(before, ds, index, own.leading);
        FormatDecl(ds[index], own.chains, acc);
        acc := FmtDecl(acc, ds[index], own.chains);
        index := index + 1;
      }
      if output == [] || output[|output| - 1] != '\n' {
        output := output + "\n";
        RenderAppend(acc, NewLine(End));
      }
      return output;
    }
  }

  lemma {:induction false} AppendAssoc(a: Text, b: Text, c: Text)
    ensures Append(a, Append(b, c)) == Append(Append(a, b), c)
  {
    match a
    case End =>
    case T(token, rest) => AppendAssoc(rest, b, c);
    case W(blank, rest) => AppendAssoc(rest, b, c);
  }
}
