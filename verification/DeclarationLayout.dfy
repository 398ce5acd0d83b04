/** Where src/fmt.rs puts blank lines between declarations, and how a file ends. */
module DeclarationLayout {
  import opened Tokens
  import opened Ast
  import opened Rendering
  import opened Comments
  import opened Parsing
  import opened WellFormed
  import opened Formatting
  import opened FormatAppend
  import opened CanonicalLayout

  // ---- Texts that end a line ----

  /** Ends with exactly one newline, which ends a line that is not empty. */
  predicate EndsLine(s: string) { |s| >= 2 && s[|s| - 1] == '\n' && s[|s| - 2] != '\n' }

  /** Text whose lines are complete. */
  predicate Complete(t: Text) { EndsLine(Render(t)) }

  lemma StillComplete(t: Text)
    ensures forall token :: Complete(t) ==> Complete(T(token, t))
    ensures forall gap :: Complete(t) ==> Complete(W(gap, t))
  {
    forall token | Complete(t)
      ensures Complete(T(token, t))
    {
      assert Render(T(token, t)) == TokenText(token) + Render(t);
    }
    forall gap | Complete(t)
      ensures Complete(W(gap, t))
    {
      assert Render(W(gap, t)) == gap + Render(t);
    }
  }

  lemma CompleteBehind(t: Text, k: Text)
    requires Complete(k)
    ensures Complete(Append(t, k))
  {
    RenderAppend(t, k);
  }

  lemma DigitsEnd(n: nat)
    ensures DecimalText(n) != [] && IsDigit(DecimalText(n)[|DecimalText(n)| - 1])
  {}

  /** The last token of a line. */
  lemma LastToken(t: Token)
    requires (t.Ident? && IsIdent(t.name)) || t.Int? || IsPunctuation(t)
    ensures Complete(T(t, NewLine(End)))
  {
    var text := TokenText(t);
    if t.Int? {
      DigitsEnd(if t.value < 0 then -t.value else t.value);
    }
    assert text != [] && text[|text| - 1] != '\n';
    assert Render(T(t, NewLine(End))) == text + "\n" by {
      assert Render(NewLine(End)) == "\n" + Render(End);
    }
  }

  lemma BraceEnds()
    ensures Complete(T(RBrace, NewLine(End)))
  {
    LastToken(RBrace);
  }

  lemma {:induction false} TypeTailEnds(empty: bool, depth: nat, ty: TypeText)
    requires ty != [] && TypeReads(empty, depth, ty)
    ensures Complete(FmtTypeTail(ty, NewLine(End)))
    decreases |ty|
  {
    if |ty| == 1 {
      LastToken(ty[0]);
    } else {
      TypeTailEnds(false, DepthAfter(depth, ty[0]), ty[1..]);
      StillComplete(FmtTypeTail(ty[1..], NewLine(End)));
      StillComplete(W(" ", FmtTypeTail(ty[1..], NewLine(End))));
    }
  }

  lemma TypeEnds(ty: TypeText)
    requires WfType(ty)
    ensures Complete(FmtType(ty, NewLine(End)))
  {
    TypeTailEnds(true, 0, ty);
    StillComplete(FmtTypeTail(ty, NewLine(End)));
  }

  // ---- Declarations without chains ----

  lemma AliasEnds(name: string, ty: TypeText)
    requires WfType(ty)
    ensures Complete(FmtAlias(name, ty, End))
  {
    hide Complete, FmtType;
    TypeEnds(ty);
    var t0 := FmtType(ty, NewLine(End));
    var t1 := W(" ", t0);
    var t2 := T(Equal, t1);
    var t3 := W(" ", t2);
    var t4 := T(Ident(name), t3);
    var t5 := W(" ", t4);
    StillComplete(t0);
    StillComplete(t1);
    StillComplete(t2);
    StillComplete(t3);
    StillComplete(t4);
    StillComplete(t5);
  }

  /** Declarations that end with a brace: the text before it does not matter. */
  lemma BracedEnds(t: Text)
    ensures Complete(Append(t, T(RBrace, NewLine(End))))
  {
    BraceEnds();
    CompleteBehind(t, T(RBrace, NewLine(End)));
  }

  lemma StructEnds(name: string, fields: seq<Port>)
    ensures Complete(FmtStruct(name, fields, End))
  {
    var brace := T(RBrace, NewLine(End));
    var head := (k: Text) => T(Ident("struct"), W(" ", T(Ident(name), W(" ", T(LBrace, NewLine(k))))));
    StructLinesAppend(fields, End, brace);
    Unfold();
    assert FmtStruct(name, fields, End) == Append(head(FmtStructLines(fields, End)), brace);
    BracedEnds(head(FmtStructLines(fields, End)));
  }

  lemma ImportEnds(source: ImportSource, clause: ImportClause)
    requires clause.As? ==> IsIdent(clause.alias)
    ensures Complete(FmtImport(source, clause, End))
  {
    hide FmtImportHead, FitsLine;
    Unfold();
    var brace := T(RBrace, NewLine(End));
    match clause
    case As(alias) =>
      var name := T(Ident(alias), NewLine(End));
      LastToken(Ident(alias));
      ImportHeadAppend(source, T(Ident("as"), W(" ", End)), name);
      CompleteBehind(FmtImportHead(source, T(Ident("as"), W(" ", End))), name);
    case Items(items) =>
      if FitsLine(source, items) {
        var line := T(LBrace, W(" ", FmtImportItems(items, W(" ", End))));
        ImportItemsAppend(items, W(" ", End), brace);
        ImportHeadAppend(source, line, brace);
        BracedEnds(FmtImportHead(source, line));
      } else {
        var lines := T(LBrace, NewLine(FmtImportLines(items, End)));
        ImportLinesAppend(items, End, brace);
        ImportHeadAppend(source, lines, brace);
        BracedEnds(FmtImportHead(source, lines));
      }
  }

  lemma ForeignEnds(language: ForeignTarget, origin: ForeignSource, nodes: seq<ForeignNode>)
    ensures Complete(FmtForeign(language, origin, nodes, End))
  {
    hide FmtForeignHead;
    Unfold();
    var brace := T(RBrace, NewLine(End));
    var body := T(LBrace, NewLine(FmtForeignLines(nodes, End)));
    ForeignLinesAppend(nodes, End, brace);
    ForeignHeadAppend(language, origin, W(" ", body), brace);
    BracedEnds(T(Ident("foreign"), W(" ", FmtForeignHead(language, origin, W(" ", body)))));
  }

  // ---- Callables ----

  lemma BlankLineIsLocal(a: string, b: string)
    requires |b| >= 2
    ensures EndsWithBlankLine(a + b) <==> EndsWithBlankLine(b)
  {}

  lemma GapIsLocal(a: string, b: string, comments: seq<ChainComments>, i: nat)
    requires |b| >= 2
    ensures GapBefore(a + b, comments, i) == GapBefore(b, comments, i)
  {
    BlankLineIsLocal(a, b);
  }

  /** What is written of a body does not depend on what was written before the callable. */
  lemma {:induction false} BodyIsLocal(
    a: string, b: string, chains: seq<Chain>, comments: seq<ChainComments>, pads: seq<seq<nat>>, i: nat)
    requires PadsFit(chains, pads) && i <= |chains| && |b| >= 2
    ensures BodyFrom(a + b, chains, comments, pads, i) == a + BodyFrom(b, chains, comments, pads, i)
    decreases |chains| - i
  {
    hide GapBefore, ChainText;
    if i < |chains| {
      var gap, text := GapBefore(b, comments, i), ChainText(chains, comments, pads, i);
      GapIsLocal(a, b, comments, i);
      assert a + b + gap + text == a + (b + gap + text);
      BodyIsLocal(a, b + gap + text, chains, comments, pads, i + 1);
    }
  }

  lemma FmtBodyIsLocal(acc: Text, head: Text, chains: seq<Chain>, comments: seq<ChainComments>)
    requires |Render(head)| >= 2
    ensures Render(FmtBody(Append(acc, head), [], chains, 0, comments))
         == Render(acc) + Render(FmtBody(head, [], chains, 0, comments))
  {
    hide FmtBody, BodyFrom, IsGroup;
    BodyIsLaidOutIff(head, chains, comments, Render(FmtBody(head, [], chains, 0, comments)));
    var pads :| BodyAligned(chains, comments, pads)
      && Render(FmtBody(head, [], chains, 0, comments)) == BodyFrom(Render(head), chains, comments, pads, 0);
    Fits(chains, comments, pads);
    RenderAppend(acc, head);
    var text := BodyFrom(Render(Append(acc, head)), chains, comments, pads, 0);
    BodyIsLaidOutIff(Append(acc, head), chains, comments, text);
    BodyIsLocal(Render(acc), Render(head), chains, comments, pads, 0);
  }

  lemma HeaderText(kind: Text, c: Callable)
    ensures |Render(FmtHeader(kind, c, End))| >= 2
  {
    var outputs := FmtPortOrList(c.outputs, W(" ", T(LBrace, NewLine(End))));
    var inputs := FmtInputs(c.inputs, W(" ", T(Arrow, W(" ", outputs))));
    var rest := T(Ident(c.name), FmtParams(c.nodeParams, inputs));
    var end := T(LBrace, NewLine(End));
    Unfold();
    PortOrListAppend(c.outputs, W(" ", End), end);
    InputsAppend(c.inputs, W(" ", T(Arrow, W(" ", FmtPortOrList(c.outputs, W(" ", End))))), end);
    var inputs0 := FmtInputs(c.inputs, W(" ", T(Arrow, W(" ", FmtPortOrList(c.outputs, W(" ", End))))));
    assert inputs == Append(inputs0, end);
    ParamsAppend(c.nodeParams, inputs0, end);
    RenderAppend(kind, W(" ", rest));
    RenderAppend(FmtParams(c.nodeParams, inputs0), end);
    assert Render(end) == "{" + Render(NewLine(End));
    NewLineText();
  }

  lemma CallableIsLocal(acc: Text, kind: Text, c: Callable, comments: seq<ChainComments>)
    ensures Render(FmtCallable(acc, kind, c, comments)) == Render(acc) + Render(FmtCallable(End, kind, c, comments))
    ensures Complete(FmtCallable(End, kind, c, comments))
  {
    hide FmtBody, FmtHeader;
    var head, brace := FmtHeader(kind, c, End), T(RBrace, NewLine(End));
    HeaderText(kind, c);
    FmtBodyIsLocal(acc, head, c.chains, comments);
    var body := FmtBody(head, [], c.chains, 0, comments);
    EndFirst(head);
    RenderAppend(FmtBody(Append(acc, head), [], c.chains, 0, comments), brace);
    RenderAppend(body, brace);
    BracedEnds(body);
    hide Render, Append;
    Joined(Render(acc), Render(body), Render(brace));
  }

  // ---- Modules ----

  ghost function DeclText(ds: seq<Decl>, layout: Layout, i: nat): string
    requires i < |ds|
  {
    CommentLines("", DeclAt(layout, i).leading) + Render(FmtDecl(End, ds[i], DeclAt(layout, i).chains))
  }

  /** What is written of a declaration does not depend on what was written before it, and it ends its line. */
  lemma DeclIsLocal(acc: Text, d: Decl, comments: seq<ChainComments>)
    requires WfDecl(d)
    ensures Render(FmtDecl(acc, d, comments)) == Render(acc) + Render(FmtDecl(End, d, comments))
    ensures Complete(FmtDecl(End, d, comments))
  {
    hide FmtAlias, FmtStruct, FmtImport, FmtForeign, FmtCallable, Complete, Render, Append;
    match d
    case TypeAlias(n, ty) =>
      AliasEnds(n, ty);
      Written(acc, FmtAlias(n, ty, End));
    case StructDecl(n, fields) =>
      StructEnds(n, fields);
      Written(acc, FmtStruct(n, fields, End));
    case Import(source, clause) =>
      ImportEnds(source, clause);
      Written(acc, FmtImport(source, clause, End));
    case Foreign(language, origin, nodes) =>
      ForeignEnds(language, origin, nodes);
      Written(acc, FmtForeign(language, origin, nodes, End));
    case Node(c) => CallableIsLocal(acc, if c.isExtern then EXTERN_NODE else NODE, c, comments);
    case Program(c) => CallableIsLocal(acc, PROGRAM, c, comments);
  }

  lemma Written(acc: Text, t: Text)
    ensures Render(Append(acc, t)) == Render(acc) + Render(t) && Append(End, t) == t
  {
    RenderAppend(acc, t);
  }

  /** Imports, type aliases and structs stay with their own kind. */
  predicate SameKind(left: Decl, right: Decl)
  {
    match left
    case Import(_, _) => right.Import?
    case TypeAlias(_, _) => right.TypeAlias?
    case StructDecl(_, _) => right.StructDecl?
    case _ => false
  }

  /** The declarations from `i` on, one blank line before each that is not of the kind of the one before it. */
  ghost function Separated(ds: seq<Decl>, layout: Layout, i: nat): string
    requires i <= |ds|
    decreases |ds| - i
  {
    if i == |ds| then ""
    else
      (if i > 0 && !SameKind(ds[i - 1], ds[i]) then "\n" else "") + (DeclText(ds, layout, i) + Separated(ds, layout, i + 1))
  }

  lemma BetweenText(acc: Text, ds: seq<Decl>, i: nat, leading: seq<string>)
    requires i < |ds| && (i > 0 ==> Complete(acc))
    ensures
      var blank := if i > 0 && !SameKind(ds[i - 1], ds[i]) then "\n" else "";
      Render(Between(acc, ds, i, leading)) == Render(acc) + blank + CommentLines("", leading)
  {
    var before := if i > 0 && NeedsBlankBetween(ds[i - 1], ds[i]) then BlankLine(acc) else acc;
    assert i > 0 ==> (NeedsBlankBetween(ds[i - 1], ds[i]) <==> !SameKind(ds[i - 1], ds[i]));
    RenderAppend(acc, NewLine(End));
    NewLineText();
    RenderAppend(before, Remarks("", leading));
    RemarksText("", leading);
  }

  lemma DeclStep(acc: Text, ds: seq<Decl>, i: nat, layout: Layout)
    requires i < |ds| && WfDecl(ds[i]) && (i > 0 ==> Complete(acc))
    ensures
      var c := DeclAt(layout, i);
      var next := FmtDecl(Between(acc, ds, i, c.leading), ds[i], c.chains);
      var blank := if i > 0 && !SameKind(ds[i - 1], ds[i]) then "\n" else "";
      Complete(next) && Render(next) == Render(acc) + (blank + DeclText(ds, layout, i))
  {
    hide FmtDecl, Between, CommentLines, SameKind, Render;
    var c := DeclAt(layout, i);
    var between := Between(acc, ds, i, c.leading);
    BetweenText(acc, ds, i, c.leading);
    DeclIsLocal(between, ds[i], c.chains);
    Grouped(Render(acc), if i > 0 && !SameKind(ds[i - 1], ds[i]) then "\n" else "", CommentLines("", c.leading),
      Render(FmtDecl(End, ds[i], c.chains)));
  }

  lemma Grouped(a: string, b: string, c: string, d: string)
    ensures a + b + c + d == a + (b + (c + d))
  {}

  lemma {:induction false} DeclsAreSeparated(acc: Text, ds: seq<Decl>, i: nat, layout: Layout)
    requires i <= |ds| && (i > 0 ==> Complete(acc))
    requires forall j :: 0 <= j < |ds| ==> WfDecl(ds[j])
    ensures Render(FmtDecls(acc, ds, i, layout)) == Render(acc) + Separated(ds, layout, i)
    ensures i < |ds| ==> Complete(FmtDecls(acc, ds, i, layout))
    ensures i == |ds| ==> FmtDecls(acc, ds, i, layout) == acc
    decreases |ds| - i
  {
    hide FmtDecl, Between, DeclText, SameKind, Render, WfDecl, Complete;
    if i < |ds| {
      var c := DeclAt(layout, i);
      var next := FmtDecl(Between(acc, ds, i, c.leading), ds[i], c.chains);
      DeclStep(acc, ds, i, layout);
      DeclsAreSeparated(next, ds, i + 1, layout);
      Grouped4(Render(acc), if i > 0 && !SameKind(ds[i - 1], ds[i]) then "\n" else "", DeclText(ds, layout, i),
        Separated(ds, layout, i + 1));
    }
  }

  lemma Grouped4(a: string, b: string, c: string, d: string)
    ensures a + (b + c) + d == a + (b + (c + d))
  {}

  /**
   * A module is its declarations with exactly one blank line between two of them, none between imports, type aliases
   * or structs that follow each other, and it ends with exactly one newline.
   */
  lemma ModuleIsSeparated(m: Module, layout: Layout)
    requires WfModule(m)
    ensures
      var text := Render(FmtModule(m, layout));
      if m.declarations == [] then text == "\n"
      else text == Separated(m.declarations, layout, 0) && EndsLine(text)
  {
    hide FmtDecls, Separated, WfDecl;
    var ds := m.declarations;
    DeclsAreSeparated(End, ds, 0, layout);
    if ds == [] {
      assert FmtModule(m, layout) == NewLine(End);
      assert Render(NewLine(End)) == "\n" + Render(End);
    }
  }

  /** Each declaration ends its own last line, so that the blank lines between them are as said. */
  lemma DeclTextEnds(ds: seq<Decl>, layout: Layout, i: nat)
    requires i < |ds| && WfDecl(ds[i])
    ensures EndsLine(DeclText(ds, layout, i))
  {
    hide FmtDecl, WfDecl, CommentLines;
    DeclIsLocal(End, ds[i], DeclAt(layout, i).chains);
  }
}
