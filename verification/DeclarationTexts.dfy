/** The lines that src/fmt.rs writes for declarations and long chains, and when it breaks them. */
module DeclarationTexts {
  import opened Tokens
  import opened Ast
  import opened Rendering
  import opened Comments
  import opened Formatting
  import opened FormatAppend
  import opened CanonicalLayout

  // ---- Parts of lines ----

  function Joined(xs: seq<string>, separator: string): string
  {
    if xs == [] then "" else if |xs| == 1 then xs[0] else xs[0] + separator + Joined(xs[1..], separator)
  }

  function TypeShown(ty: TypeText): string { Render(FmtType(ty, End)) }

  function PortShown(p: Port): string { p.name + ": " + TypeShown(p.ty) }

  function PortsShown(ps: seq<Port>): (r: seq<string>)
    ensures |r| == |ps| && forall i :: 0 <= i < |ps| ==> r[i] == PortShown(ps[i])
  {
    seq(|ps|, i requires 0 <= i < |ps| => PortShown(ps[i]))
  }

  function PortList(ps: seq<Port>): string { "(" + Joined(PortsShown(ps), ", ") + ")" }

  /** One output needs no parentheses. */
  function OutputList(ps: seq<Port>): string { if |ps| == 1 then PortShown(ps[0]) else PortList(ps) }

  function ParamShown(p: NodeParam): string
  {
    p.name + ": node(" + TypeShown(p.input) + ") -> " + TypeShown(p.output)
  }

  function ParamsShown(ps: seq<NodeParam>): (r: seq<string>)
    ensures |r| == |ps| && forall i :: 0 <= i < |ps| ==> r[i] == ParamShown(ps[i])
  {
    seq(|ps|, i requires 0 <= i < |ps| => ParamShown(ps[i]))
  }

  /** The first line of a node or program, behind its kind. */
  function HeaderShown(c: Callable): string
  {
    var params := if c.nodeParams == [] then "" else "<" + Joined(ParamsShown(c.nodeParams), ", ") + ">";
    " " + c.name + params + PortList(c.inputs) + " -> " + OutputList(c.outputs) + " {\n"
  }

  function ItemShown(i: ImportItem): string { if i.alias.None? then i.name else i.name + " as " + i.alias.value }

  function ItemsShown(items: seq<ImportItem>): (r: seq<string>)
    ensures |r| == |items| && forall i :: 0 <= i < |items| ==> r[i] == ItemShown(items[i])
  {
    seq(|items|, i requires 0 <= i < |items| => ItemShown(items[i]))
  }

  function SourceShown(s: ImportSource): string { Render(FmtSource(s, End)) }

  /** Indented lines, each with the same end. */
  function Lines(indent: string, xs: seq<string>, end: string): string
  {
    if xs == [] then "" else indent + xs[0] + end + Lines(indent, xs[1..], end)
  }

  function InlineImport(source: ImportSource, items: seq<ImportItem>): string
  {
    "import " + SourceShown(source) + " { " + Joined(ItemsShown(items), ", ") + " }"
  }

  /** More than four items, or more than a hundred characters, go on lines of their own. */
  function ImportShown(source: ImportSource, clause: ImportClause): string
  {
    match clause
    case As(alias) => "import " + SourceShown(source) + " as " + alias + "\n"
    case Items(items) =>
      var line := InlineImport(source, items);
      if |items| <= 4 && |line| <= 100 then line + "\n"
      else "import " + SourceShown(source) + " {\n" + Lines("    ", ItemsShown(items), ",\n") + "}\n"
  }

  function ForeignNodeShown(n: ForeignNode): string
  {
    (if n.effect.Pure? then "pure" else "io") + " node " + n.name + PortList(n.inputs) + " -> " + OutputList(n.outputs)
    + " = " + Render(FmtQName(n.symbol, End))
  }

  function ForeignNodesShown(ns: seq<ForeignNode>): (r: seq<string>)
    ensures |r| == |ns| && forall i :: 0 <= i < |ns| ==> r[i] == ForeignNodeShown(ns[i])
  {
    seq(|ns|, i requires 0 <= i < |ns| => ForeignNodeShown(ns[i]))
  }

  // ---- Ports and parameters ----

  lemma Behind(t: Text, k: Text)
    ensures Render(Append(t, k)) == Render(t) + Render(k) && Append(End, k) == k && Render(End) == ""
  {
    RenderAppend(t, k);
  }

  lemma First(t: Token, k: Text)
    ensures Render(T(t, k)) == TokenText(t) + Render(k)
  {}

  lemma Then(b: string, k: Text)
    ensures Render(W(b, k)) == b + Render(k)
  {}

  lemma PortWritten(p: Port, k: Text)
    ensures Render(FmtPort(p, k)) == PortShown(p) + Render(k)
  {
    hide Render, Append, FmtType;
    TypeAppend(p.ty, End, k);
    Behind(FmtType(p.ty, End), k);
    var ty := FmtType(p.ty, k);
    First(Ident(p.name), T(Colon, W(" ", ty)));
    First(Colon, W(" ", ty));
    Then(" ", ty);
    assert ":" + (" " + (TypeShown(p.ty) + Render(k))) == ": " + TypeShown(p.ty) + Render(k);
  }

  lemma {:induction false} PortsWritten(ps: seq<Port>, k: Text)
    ensures Render(FmtPorts(ps, k)) == Joined(PortsShown(ps), ", ") + Render(k)
    decreases |ps|
  {
    hide Render, FmtPort, PortShown;
    if |ps| == 1 {
      PortWritten(ps[0], k);
    } else if ps != [] {
      var rest := FmtPorts(ps[1..], k);
      PortsWritten(ps[1..], k);
      assert PortsShown(ps)[1..] == PortsShown(ps[1..]);
      PortWritten(ps[0], T(Comma, W(" ", rest)));
      Separated(rest);
      Grouped(PortShown(ps[0]), ", ", Joined(PortsShown(ps[1..]), ", "), Render(k));
    }
  }

  lemma Separated(k: Text)
    ensures Render(T(Comma, W(" ", k))) == ", " + Render(k)
  {
    assert Render(W(" ", k)) == " " + Render(k);
    assert "," + (" " + Render(k)) == ", " + Render(k);
  }

  lemma Grouped(a: string, b: string, c: string, d: string)
    ensures a + (b + (c + d)) == a + b + c + d
  {}

  lemma InParentheses(s: string, inner: Text, k: Text)
    requires Render(inner) == s + Render(T(RParen, k))
    ensures Render(T(LParen, inner)) == "(" + s + ")" + Render(k)
  {
    First(LParen, inner);
    First(RParen, k);
    hide Render;
    assert "(" + (s + (")" + Render(k))) == "(" + s + ")" + Render(k);
  }

  lemma InputsWritten(ps: seq<Port>, k: Text)
    ensures Render(FmtInputs(ps, k)) == PortList(ps) + Render(k)
  {
    PortsWritten(ps, T(RParen, k));
    InParentheses(Joined(PortsShown(ps), ", "), FmtPorts(ps, T(RParen, k)), k);
    hide Render, FmtPorts, Joined;
  }

  lemma OutputsWritten(ps: seq<Port>, k: Text)
    ensures Render(FmtPortOrList(ps, k)) == OutputList(ps) + Render(k)
  {
    hide Render, FmtPorts, FmtPort, PortShown, PortList;
    if |ps| == 1 {
      PortWritten(ps[0], k);
    } else {
      InputsWritten(ps, k);
    }
  }

  lemma ArrowWritten(k: Text)
    ensures Render(W(" ", T(Arrow, W(" ", k)))) == " -> " + Render(k)
  {
    Then(" ", T(Arrow, W(" ", k)));
    First(Arrow, W(" ", k));
    Then(" ", k);
    hide Render;
    assert " " + ("->" + (" " + Render(k))) == " -> " + Render(k);
  }

  lemma TypeWritten(ty: TypeText, k: Text)
    ensures Render(FmtType(ty, k)) == TypeShown(ty) + Render(k)
  {
    hide FmtType, Render, Append;
    TypeAppend(ty, End, k);
    Behind(FmtType(ty, End), k);
  }

  lemma ParamWritten(p: NodeParam, k: Text)
    ensures Render(FmtParam(p, k)) == ParamShown(p) + Render(k)
  {
    hide Render, FmtType, TypeShown;
    var output := FmtType(p.output, k);
    var arrow := W(" ", T(Arrow, W(" ", output)));
    var input := FmtType(p.input, T(RParen, arrow));
    TypeWritten(p.output, k);
    ArrowWritten(output);
    TypeWritten(p.input, T(RParen, arrow));
    InParentheses(TypeShown(p.input), input, arrow);
    First(Ident("node"), T(LParen, input));
    Then(" ", T(Ident("node"), T(LParen, input)));
    First(Colon, W(" ", T(Ident("node"), T(LParen, input))));
    First(Ident(p.name), T(Colon, W(" ", T(Ident("node"), T(LParen, input)))));
    ParamText(p.name, TypeShown(p.input), TypeShown(p.output), Render(k));
  }

  lemma ParamText(name: string, input: string, output: string, k: string)
    ensures name + (":" + (" " + ("node" + ("(" + input + ")" + (" -> " + (output + k))))))
         == name + ": node(" + input + ") -> " + output + k
  {
    assert ":" + (" " + ("node" + ("(" + input + ")" + (" -> " + (output + k))))) == ": node(" + input + ") -> " + output + k;
  }

  lemma {:induction false} ParamListWritten(ps: seq<NodeParam>, k: Text)
    ensures Render(FmtParamList(ps, k)) == Joined(ParamsShown(ps), ", ") + Render(k)
    decreases |ps|
  {
    hide Render, FmtParam, ParamShown;
    if |ps| == 1 {
      ParamWritten(ps[0], k);
    } else if ps != [] {
      var rest := FmtParamList(ps[1..], k);
      ParamListWritten(ps[1..], k);
      assert ParamsShown(ps)[1..] == ParamsShown(ps[1..]);
      ParamWritten(ps[0], T(Comma, W(" ", rest)));
      Separated(rest);
      Grouped(ParamShown(ps[0]), ", ", Joined(ParamsShown(ps[1..]), ", "), Render(k));
    }
  }

  lemma BraceWritten(k: Text)
    ensures Render(W(" ", T(LBrace, NewLine(k)))) == " {\n" + Render(k)
  {
    Then(" ", T(LBrace, NewLine(k)));
    First(LBrace, NewLine(k));
    Then("\n", k);
    hide Render;
    assert " " + ("{" + ("\n" + Render(k))) == " {\n" + Render(k);
  }

  lemma LastBrace(k: Text)
    ensures Render(T(RBrace, NewLine(k))) == "}\n" + Render(k)
  {
    First(RBrace, NewLine(k));
    Then("\n", k);
    hide Render;
    assert "}" + ("\n" + Render(k)) == "}\n" + Render(k);
  }

  /** The header of a callable is one line, whatever its length. */
  lemma HeaderIs(kind: Text, c: Callable)
    ensures Render(FmtHeader(kind, c, End)) == Render(kind) + HeaderShown(c)
  {
    hide Render, Append, FmtInputs, FmtPortOrList, PortList, OutputList, FmtParamList, Joined;
    var outputs := FmtPortOrList(c.outputs, W(" ", T(LBrace, NewLine(End))));
    var inputs := FmtInputs(c.inputs, W(" ", T(Arrow, W(" ", outputs))));
    BraceWritten(End);
    Behind(End, End);
    OutputsWritten(c.outputs, W(" ", T(LBrace, NewLine(End))));
    ArrowWritten(outputs);
    InputsWritten(c.inputs, W(" ", T(Arrow, W(" ", outputs))));
    var params := if c.nodeParams == [] then "" else "<" + Joined(ParamsShown(c.nodeParams), ", ") + ">";
    ParamsWritten(c.nodeParams, inputs);
    var rest := T(Ident(c.name), FmtParams(c.nodeParams, inputs));
    First(Ident(c.name), FmtParams(c.nodeParams, inputs));
    Then(" ", rest);
    Behind(kind, W(" ", rest));
    HeaderText(c.name, params, PortList(c.inputs), OutputList(c.outputs));
  }

  lemma ParamsWritten(ps: seq<NodeParam>, k: Text)
    ensures
      var params := if ps == [] then "" else "<" + Joined(ParamsShown(ps), ", ") + ">";
      Render(FmtParams(ps, k)) == params + Render(k)
  {
    hide Render, FmtParamList, Joined;
    if ps != [] {
      ParamListWritten(ps, T(Greater, k));
      First(Greater, k);
      First(Less, FmtParamList(ps, T(Greater, k)));
      var inner := Joined(ParamsShown(ps), ", ");
      assert "<" + (inner + (">" + Render(k))) == "<" + inner + ">" + Render(k);
    }
  }

  lemma HeaderText(name: string, params: string, inputs: string, outputs: string)
    ensures " " + (name + (params + (inputs + (" -> " + (outputs + (" {\n" + ""))))))
         == " " + name + params + inputs + " -> " + outputs + " {\n"
  {}

  // ---- Declarations without chains ----

  lemma AliasIs(name: string, ty: TypeText)
    ensures Render(FmtAlias(name, ty, End)) == "type " + name + " = " + TypeShown(ty) + "\n"
  {
    hide Render, FmtType, TypeShown;
    var t := FmtType(ty, NewLine(End));
    TypeWritten(ty, NewLine(End));
    Then("\n", End);
    Behind(End, End);
    Then(" ", t);
    First(Equal, W(" ", t));
    Then(" ", T(Equal, W(" ", t)));
    First(Ident(name), W(" ", T(Equal, W(" ", t))));
    Then(" ", T(Ident(name), W(" ", T(Equal, W(" ", t)))));
    First(Ident("type"), W(" ", T(Ident(name), W(" ", T(Equal, W(" ", t))))));
    AliasText(name, TypeShown(ty));
  }

  lemma AliasText(name: string, ty: string)
    ensures "type" + (" " + (name + (" " + ("=" + (" " + (ty + ("\n" + ""))))))) == "type " + name + " = " + ty + "\n"
  {}

  lemma {:induction false} StructLinesWritten(ps: seq<Port>, k: Text)
    ensures Render(FmtStructLines(ps, k)) == Lines("    ", PortsShown(ps), ",\n") + Render(k)
    decreases |ps|
  {
    hide Render, FmtPort, PortShown;
    if ps != [] {
      var rest := FmtStructLines(ps[1..], k);
      StructLinesWritten(ps[1..], k);
      assert PortsShown(ps)[1..] == PortsShown(ps[1..]);
      LineBroken(rest);
      PortWritten(ps[0], T(Comma, NewLine(rest)));
      Then(INDENT, FmtPort(ps[0], T(Comma, NewLine(rest))));
      LineText(PortShown(ps[0]), ",\n", Lines("    ", PortsShown(ps[1..]), ",\n"), Render(k));
    }
  }

  lemma LineBroken(k: Text)
    ensures Render(T(Comma, NewLine(k))) == ",\n" + Render(k)
  {
    First(Comma, NewLine(k));
    Then("\n", k);
    hide Render;
    assert "," + ("\n" + Render(k)) == ",\n" + Render(k);
  }

  lemma LineText(x: string, end: string, rest: string, k: string)
    ensures "    " + (x + (end + (rest + k))) == "    " + x + end + rest + k
  {}

  lemma StructIs(name: string, fields: seq<Port>)
    ensures
      Render(FmtStruct(name, fields, End)) == "struct " + name + " {\n" + Lines("    ", PortsShown(fields), ",\n") + "}\n"
  {
    hide Render, FmtStructLines, Lines;
    var last := T(RBrace, NewLine(End));
    var lines := FmtStructLines(fields, last);
    LastBrace(End);
    Behind(End, End);
    StructLinesWritten(fields, last);
    BraceWritten(lines);
    var tail := W(" ", T(LBrace, NewLine(lines)));
    First(Ident(name), tail);
    Then(" ", T(Ident(name), tail));
    First(Ident("struct"), W(" ", T(Ident(name), tail)));
    StructText(name, Lines("    ", PortsShown(fields), ",\n"));
  }

  lemma StructText(name: string, lines: string)
    ensures "struct" + (" " + (name + (" {\n" + (lines + ("}\n" + ""))))) == "struct " + name + " {\n" + lines + "}\n"
  {}

  lemma ItemWritten(i: ImportItem, k: Text)
    ensures Render(FmtItem(i, k)) == ItemShown(i) + Render(k)
  {
    hide Render;
    if i.alias.None? {
      First(Ident(i.name), k);
    } else {
      var alias := T(Ident(i.alias.value), k);
      First(Ident(i.alias.value), k);
      Then(" ", alias);
      First(Ident("as"), W(" ", alias));
      Then(" ", T(Ident("as"), W(" ", alias)));
      First(Ident(i.name), W(" ", T(Ident("as"), W(" ", alias))));
      AsText(i.name, i.alias.value, Render(k));
    }
  }

  lemma AsText(name: string, alias: string, k: string)
    ensures name + (" " + ("as" + (" " + (alias + k)))) == name + " as " + alias + k
  {}

  lemma {:induction false} ItemsWritten(items: seq<ImportItem>, k: Text)
    ensures Render(FmtImportItems(items, k)) == Joined(ItemsShown(items), ", ") + Render(k)
    decreases |items|
  {
    hide Render, FmtItem, ItemShown;
    if |items| == 1 {
      ItemWritten(items[0], k);
    } else if items != [] {
      var rest := FmtImportItems(items[1..], k);
      ItemsWritten(items[1..], k);
      assert ItemsShown(items)[1..] == ItemsShown(items[1..]);
      ItemWritten(items[0], T(Comma, W(" ", rest)));
      Separated(rest);
      Grouped(ItemShown(items[0]), ", ", Joined(ItemsShown(items[1..]), ", "), Render(k));
    }
  }

  lemma {:induction false} ImportLinesWritten(items: seq<ImportItem>, k: Text)
    ensures Render(FmtImportLines(items, k)) == Lines("    ", ItemsShown(items), ",\n") + Render(k)
    decreases |items|
  {
    hide Render, FmtItem, ItemShown;
    if items != [] {
      var rest := FmtImportLines(items[1..], k);
      ImportLinesWritten(items[1..], k);
      assert ItemsShown(items)[1..] == ItemsShown(items[1..]);
      LineBroken(rest);
      ItemWritten(items[0], T(Comma, NewLine(rest)));
      Then(INDENT, FmtItem(items[0], T(Comma, NewLine(rest))));
      LineText(ItemShown(items[0]), ",\n", Lines("    ", ItemsShown(items[1..]), ",\n"), Render(k));
    }
  }

  lemma HeadWritten(source: ImportSource, k: Text)
    ensures Render(FmtImportHead(source, k)) == "import " + SourceShown(source) + " " + Render(k)
  {
    hide Render, FmtSource, Append;
    SourceAppend(source, End, W(" ", k));
    Behind(FmtSource(source, End), W(" ", k));
    Then(" ", k);
    Then(" ", FmtSource(source, W(" ", k)));
    First(Ident("import"), W(" ", FmtSource(source, W(" ", k))));
    var s := SourceShown(source);
    assert "import" + (" " + (s + (" " + Render(k)))) == "import " + s + " " + Render(k);
  }

  lemma InlineWritten(source: ImportSource, items: seq<ImportItem>, k: Text)
    ensures Render(FmtInlineImport(source, items, k)) == InlineImport(source, items) + Render(k)
  {
    hide Render, FmtImportHead, FmtImportItems, Joined;
    var end := W(" ", T(RBrace, k));
    First(RBrace, k);
    Then(" ", T(RBrace, k));
    ItemsWritten(items, end);
    Then(" ", FmtImportItems(items, end));
    First(LBrace, W(" ", FmtImportItems(items, end)));
    HeadWritten(source, T(LBrace, W(" ", FmtImportItems(items, end))));
    InlineText(SourceShown(source), Joined(ItemsShown(items), ", "), Render(k));
  }

  lemma InlineText(source: string, items: string, k: string)
    ensures "import " + source + " " + ("{" + (" " + (items + (" " + ("}" + k))))) == "import " + source + " { " + items + " }" + k
  {}

  /** An import stays on one line exactly when it has at most four items and its line at most a hundred characters. */
  lemma ImportIs(source: ImportSource, clause: ImportClause)
    ensures Render(FmtImport(source, clause, End)) == ImportShown(source, clause)
  {
    hide Render, FmtImportHead, FmtInlineImport, InlineImport, FmtImportLines, Lines, SourceShown;
    Behind(End, End);
    Then("\n", End);
    match clause
    case As(alias) =>
      var name := T(Ident(alias), NewLine(End));
      First(Ident(alias), NewLine(End));
      Then(" ", name);
      First(Ident("as"), W(" ", name));
      HeadWritten(source, T(Ident("as"), W(" ", name)));
      AliasedText(SourceShown(source), alias);
    case Items(items) =>
      InlineWritten(source, items, End);
      InlineWritten(source, items, NewLine(End));
      var last := T(RBrace, NewLine(End));
      LastBrace(End);
      ImportLinesWritten(items, last);
      var lines := FmtImportLines(items, last);
      First(LBrace, NewLine(lines));
      Then("\n", lines);
      HeadWritten(source, T(LBrace, NewLine(lines)));
      BrokenText(SourceShown(source), Lines("    ", ItemsShown(items), ",\n"));
      assert "\n" + "" == "\n" && InlineImport(source, items) + "" == InlineImport(source, items);
  }

  lemma AliasedText(source: string, alias: string)
    ensures "import " + source + " " + ("as" + (" " + (alias + ("\n" + "")))) == "import " + source + " as " + alias + "\n"
  {}

  lemma BrokenText(source: string, lines: string)
    ensures "import " + source + " " + ("{" + ("\n" + (lines + ("}\n" + "")))) == "import " + source + " {\n" + lines + "}\n"
  {}

  // ---- Foreign blocks ----

  function OriginShown(origin: ForeignSource): string
  {
    match origin
    case JsModule(s) => "module " + TokenText(Token.Str(s))
    case JsGlobal(s) => "global " + TokenText(Token.Str(s))
    case CHeader(h, file) =>
      "header " + TokenText(Token.Str(h)) + if file.None? then "" else " source " + TokenText(Token.Str(file.value))
  }

  lemma WordThenString(word: string, s: string, k: Text)
    ensures Render(T(Ident(word), W(" ", T(Token.Str(s), k)))) == word + " " + TokenText(Token.Str(s)) + Render(k)
  {
    hide Render, TokenText;
    First(Token.Str(s), k);
    Then(" ", T(Token.Str(s), k));
    First(Ident(word), W(" ", T(Token.Str(s), k)));
    assert TokenText(Ident(word)) == word by { WordText(word); }
    assert word + (" " + (TokenText(Token.Str(s)) + Render(k))) == word + " " + TokenText(Token.Str(s)) + Render(k);
  }

  lemma WordText(word: string)
    ensures TokenText(Ident(word)) == word
  {}

  lemma HeadOfForeign(language: ForeignTarget, origin: ForeignSource, k: Text)
    ensures
      Render(FmtForeignHead(language, origin, k))
      == (if language.Js? then "js" else "c") + " " + OriginShown(origin) + Render(k)
  {
    hide Render, TokenText;
    var word := if language.Js? then "js" else "c";
    var rest := OriginText(origin, k);
    OriginWritten(origin, k);
    Then(" ", rest);
    First(Ident(word), W(" ", rest));
    WordText(word);
    assert word + (" " + (OriginShown(origin) + Render(k))) == word + " " + OriginShown(origin) + Render(k);
  }

  function OriginText(origin: ForeignSource, k: Text): Text
  {
    match origin
    case JsModule(s) => T(Ident("module"), W(" ", T(Token.Str(s), k)))
    case JsGlobal(s) => T(Ident("global"), W(" ", T(Token.Str(s), k)))
    case CHeader(h, file) =>
      T(Ident("header"), W(" ", T(Token.Str(h),
        if file.None? then k else W(" ", T(Ident("source"), W(" ", T(Token.Str(file.value), k)))))))
  }

  lemma OriginWritten(origin: ForeignSource, k: Text)
    ensures Render(OriginText(origin, k)) == OriginShown(origin) + Render(k)
  {
    hide Render, TokenText;
    match origin
    case JsModule(s) =>
      WordThenString("module", s, k);
      assert "module" + " " == "module ";
    case JsGlobal(s) =>
      WordThenString("global", s, k);
      assert "global" + " " == "global ";
    case CHeader(h, file) =>
      if file.None? {
        WordThenString("header", h, k);
        assert "header" + " " == "header ";
        assert "header " + TokenText(Token.Str(h)) + "" == "header " + TokenText(Token.Str(h));
      } else {
        var source := T(Ident("source"), W(" ", T(Token.Str(file.value), k)));
        WordThenString("source", file.value, k);
        Then(" ", source);
        WordThenString("header", h, W(" ", source));
        SourceText(TokenText(Token.Str(h)), TokenText(Token.Str(file.value)), Render(k));
      }
  }

  lemma SourceText(h: string, file: string, k: string)
    ensures "header" + " " + h + (" " + ("source" + " " + file + k)) == "header " + h + (" source " + file) + k
  {}

  lemma ForeignNodeWritten(n: ForeignNode, k: Text)
    ensures Render(FmtForeignNode(n, k)) == ForeignNodeShown(n) + Render(k)
  {
    hide Render, Append, FmtQName, FmtInputs, FmtPortOrList, PortList, OutputList;
    var symbol := FmtQName(n.symbol, k);
    QNameAppend(n.symbol, End, k);
    Behind(FmtQName(n.symbol, End), k);
    Then(" ", symbol);
    First(Equal, W(" ", symbol));
    Then(" ", T(Equal, W(" ", symbol)));
    var result := W(" ", T(Equal, W(" ", symbol)));
    OutputsWritten(n.outputs, result);
    var outputs := FmtPortOrList(n.outputs, result);
    ArrowWritten(outputs);
    var arrow := W(" ", T(Arrow, W(" ", outputs)));
    InputsWritten(n.inputs, arrow);
    var inputs := FmtInputs(n.inputs, arrow);
    First(Ident(n.name), inputs);
    Then(" ", T(Ident(n.name), inputs));
    var head := T(Ident("node"), W(" ", T(Ident(n.name), inputs)));
    First(Ident("node"), W(" ", T(Ident(n.name), inputs)));
    Then(" ", head);
    var effect := if n.effect.Pure? then "pure" else "io";
    First(Ident(effect), W(" ", head));
    NodeText(effect, n.name, PortList(n.inputs), OutputList(n.outputs), Render(FmtQName(n.symbol, End)), Render(k));
  }

  lemma NodeText(effect: string, name: string, inputs: string, outputs: string, symbol: string, k: string)
    ensures effect + (" " + ("node" + (" " + (name + (inputs + (" -> " + (outputs + (" " + ("=" + (" " + (symbol + k)))))))))))
         == effect + " node " + name + inputs + " -> " + outputs + " = " + symbol + k
  {
    var tail := outputs + (" " + ("=" + (" " + (symbol + k))));
    assert tail == outputs + " = " + symbol + k;
    assert " " + ("node" + (" " + (name + (inputs + (" -> " + tail))))) == " node " + name + inputs + " -> " + tail;
  }

  lemma {:induction false} ForeignLinesWritten(ns: seq<ForeignNode>, k: Text)
    ensures Render(FmtForeignLines(ns, k)) == Lines("    ", ForeignNodesShown(ns), "\n") + Render(k)
    decreases |ns|
  {
    hide Render, FmtForeignNode, ForeignNodeShown;
    if ns != [] {
      var rest := FmtForeignLines(ns[1..], k);
      ForeignLinesWritten(ns[1..], k);
      assert ForeignNodesShown(ns)[1..] == ForeignNodesShown(ns[1..]);
      Then("\n", rest);
      ForeignNodeWritten(ns[0], NewLine(rest));
      Then(INDENT, FmtForeignNode(ns[0], NewLine(rest)));
      LineText(ForeignNodeShown(ns[0]), "\n", Lines("    ", ForeignNodesShown(ns[1..]), "\n"), Render(k));
    }
  }

  lemma ForeignIs(language: ForeignTarget, origin: ForeignSource, nodes: seq<ForeignNode>)
    ensures
      var word := if language.Js? then "js" else "c";
      Render(FmtForeign(language, origin, nodes, End))
      == "foreign " + word + " " + OriginShown(origin) + " {\n" + Lines("    ", ForeignNodesShown(nodes), "\n") + "}\n"
  {
    hide Render, FmtForeignHead, FmtForeignLines, Lines, OriginShown;
    var last := T(RBrace, NewLine(End));
    LastBrace(End);
    Behind(End, End);
    ForeignLinesWritten(nodes, last);
    var lines := FmtForeignLines(nodes, last);
    BraceWritten(lines);
    var body := W(" ", T(LBrace, NewLine(lines)));
    HeadOfForeign(language, origin, body);
    Then(" ", FmtForeignHead(language, origin, body));
    First(Ident("foreign"), W(" ", FmtForeignHead(language, origin, body)));
    ForeignText(if language.Js? then "js" else "c", OriginShown(origin), Lines("    ", ForeignNodesShown(nodes), "\n"));
  }

  lemma ForeignText(word: string, origin: string, lines: string)
    ensures "foreign" + (" " + (word + " " + origin + (" {\n" + (lines + ("}\n" + "")))))
         == "foreign " + word + " " + origin + " {\n" + lines + "}\n"
  {}

  // ---- Chains over several lines ----

  function ArmsShown(arms: seq<MatchArm>): (r: seq<string>)
    ensures |r| == |arms| && forall i :: 0 <= i < |arms| ==> r[i] == Render(FmtArm(arms[i], End))
  {
    seq(|arms|, i requires 0 <= i < |arms| => Render(FmtArm(arms[i], End)))
  }

  /** A match has a line for each arm, any other stage is one line. */
  function StageLines(stages: seq<Stage>): string
  {
    if stages == [] then ""
    else
      (match stages[0]
       case Match(arms) => "    -> match {\n" + Lines("        ", ArmsShown(arms), "\n") + "    }\n"
       case _ => "    -> " + Render(FmtStage(stages[0], End)) + "\n")
      + StageLines(stages[1..])
  }

  function StagesBehind(stages: seq<Stage>): string
  {
    if stages == [] then "" else " -> " + Render(FmtStage(stages[0], End)) + StagesBehind(stages[1..])
  }

  function FieldLines(fields: seq<Field>): string
  {
    if fields == [] then ""
    else
      "        " + Render(FmtField(fields[0], End)) + (if |fields| == 1 then "\n" else ",\n") + FieldLines(fields[1..])
  }

  lemma ArmsAreLines(arms: seq<MatchArm>, k: Text)
    ensures Render(FmtArmLines(arms, k)) == Lines("        ", ArmsShown(arms), "\n") + Render(k)
    decreases |arms|
  {
    hide Render, FmtArm, Append;
    if arms != [] {
      var rest := FmtArmLines(arms[1..], k);
      ArmsAreLines(arms[1..], k);
      assert ArmsShown(arms)[1..] == ArmsShown(arms[1..]);
      Then("\n", rest);
      ArmAppend(arms[0], End, NewLine(rest));
      Behind(FmtArm(arms[0], End), NewLine(rest));
      Then(INDENT + INDENT, FmtArm(arms[0], NewLine(rest)));
      assert INDENT + INDENT == "        ";
      DeepLine(Render(FmtArm(arms[0], End)), "\n", Lines("        ", ArmsShown(arms[1..]), "\n"), Render(k));
    }
  }

  lemma DeepLine(x: string, end: string, rest: string, k: string)
    ensures "        " + (x + (end + (rest + k))) == "        " + x + end + rest + k
  {}

  lemma StageLineWritten(s: Stage, k: Text)
    ensures Render(FmtStageLine(s, k)) == StageLines([s]) + Render(k)
  {
    hide Render, FmtStage, FmtArmLines, Append, Lines;
    assert [s][1..] == [] && StageLines([]) == "";
    match s
    case Match(arms) =>
      var last := W(INDENT, T(RBrace, NewLine(k)));
      LastBrace(k);
      Then(INDENT, T(RBrace, NewLine(k)));
      ArmsAreLines(arms, last);
      var lines := FmtArmLines(arms, last);
      BraceWritten(lines);
      var stage := T(Ident("match"), W(" ", T(LBrace, NewLine(lines))));
      First(Ident("match"), W(" ", T(LBrace, NewLine(lines))));
      Indented(stage);
      MatchText(Lines("        ", ArmsShown(arms), "\n"), Render(k));
    case _ =>
      Then("\n", k);
      StageAppend(s, End, NewLine(k));
      Behind(FmtStage(s, End), NewLine(k));
      Indented(FmtStage(s, NewLine(k)));
      PlainText(Render(FmtStage(s, End)), Render(k));
  }

  lemma Indented(stage: Text)
    ensures Render(W(INDENT, T(Arrow, W(" ", stage)))) == "    -> " + Render(stage)
  {
    Then(INDENT, T(Arrow, W(" ", stage)));
    First(Arrow, W(" ", stage));
    Then(" ", stage);
    hide Render;
    assert "    " + ("->" + (" " + Render(stage))) == "    -> " + Render(stage);
  }

  lemma MatchText(lines: string, k: string)
    ensures "    -> " + ("match" + (" {\n" + (lines + ("    " + ("}\n" + k)))))
         == "    -> match {\n" + lines + "    }\n" + "" + k
  {}

  lemma PlainText(stage: string, k: string)
    ensures "    -> " + (stage + ("\n" + k)) == "    -> " + stage + "\n" + "" + k
  {}

  lemma {:induction false} StageLinesWritten(stages: seq<Stage>, k: Text)
    ensures Render(FmtStageLines(stages, k)) == StageLines(stages) + Render(k)
    decreases |stages|
  {
    hide Render, FmtStage, FmtStageLine, Lines;
    if stages != [] {
      StageLineWritten(stages[0], FmtStageLines(stages[1..], k));
      StageLinesWritten(stages[1..], k);
      FirstLine(stages);
      assert StageLines([stages[0]]) + (StageLines(stages[1..]) + Render(k))
          == StageLines([stages[0]]) + StageLines(stages[1..]) + Render(k);
    }
  }

  lemma FirstLine(stages: seq<Stage>)
    requires stages != []
    ensures StageLines(stages) == StageLines([stages[0]]) + StageLines(stages[1..])
  {
    assert [stages[0]][1..] == [] && StageLines([]) == "";
  }

  lemma {:induction false} StagesBehindWritten(stages: seq<Stage>, k: Text)
    ensures Render(FmtStages(stages, k)) == StagesBehind(stages) + Render(k)
    decreases |stages|
  {
    hide Render, FmtStage, Append;
    if stages != [] {
      var rest := FmtStages(stages[1..], k);
      StagesBehindWritten(stages[1..], k);
      StageAppend(stages[0], End, rest);
      Behind(FmtStage(stages[0], End), rest);
      ArrowWritten(FmtStage(stages[0], rest));
      Grouped4(" -> ", Render(FmtStage(stages[0], End)), StagesBehind(stages[1..]), Render(k));
    }
  }

  lemma Grouped4(a: string, b: string, c: string, d: string)
    ensures a + (b + (c + d)) == a + b + c + d
  {}

  lemma {:induction false} FieldLinesWritten(fields: seq<Field>, k: Text)
    ensures Render(FmtFieldLines(fields, k)) == FieldLines(fields) + Render(k)
    decreases |fields|
  {
    hide Render, FmtField, Append;
    if fields != [] {
      var rest := FmtFieldLines(fields[1..], k);
      var end := if |fields| == 1 then NewLine(k) else T(Comma, NewLine(rest));
      FieldLinesWritten(fields[1..], k);
      Then("\n", k);
      LineBroken(rest);
      FieldAppend(fields[0], End, end);
      Behind(FmtField(fields[0], End), end);
      Then(INDENT + INDENT, FmtField(fields[0], end));
      assert INDENT + INDENT == "        ";
      if |fields| == 1 {
        assert FieldLines(fields[1..]) == "" && "" + Render(k) == Render(k);
        DeepLine(Render(FmtField(fields[0], End)), "\n", "", Render(k));
      } else {
        DeepLine(Render(FmtField(fields[0], End)), ",\n", FieldLines(fields[1..]), Render(k));
      }
    }
  }

  /** A chain is broken when it has a match, or begins with a struct literal of more than a hundred characters. */
  lemma BrokenIff(c: Chain)
    ensures
      IsMultiline(c)
      <==> || (exists i :: 0 <= i < |c.stages| && c.stages[i].Match?)
           || (c.source.Struct? && |Render(FmtEndpoint(c.source, End))| > 100)
  {
    hide FmtEndpoint, Render;
    MatchIff(c.stages);
  }

  lemma {:induction false} MatchIff(stages: seq<Stage>)
    ensures HasMatch(stages) <==> exists i :: 0 <= i < |stages| && stages[i].Match?
  {
    if stages != [] {
      MatchIff(stages[1..]);
      assert forall i :: 1 <= i < |stages| ==> stages[i] == stages[1..][i - 1];
      if !stages[0].Match? && exists i :: 0 <= i < |stages| && stages[i].Match? {
        var i :| 0 <= i < |stages| && stages[i].Match?;
        assert stages[1..][i - 1].Match?;
      }
    }
  }

  /** The stages before the first match. */
  lemma {:induction false} InlineCountIs(stages: seq<Stage>)
    ensures
      var n := InlineCount(stages);
      && (forall i :: 0 <= i < n ==> !stages[i].Match?)
      && (n < |stages| ==> stages[n].Match?)
  {
    if stages != [] && !stages[0].Match? {
      InlineCountIs(stages[1..]);
      assert forall i :: 1 <= i < |stages| ==> stages[i] == stages[1..][i - 1];
    }
  }

  lemma EndShown(trailing: Option<string>, k: Text)
    ensures Render(LineEnd(trailing, k)) == EndOf(trailing) + Render(k)
  {}

  /** Its source is one line, and so is each stage. */
  lemma BrokenChainIs(c: Chain, trailing: Option<string>)
    requires !IsLongStruct(c.source)
    ensures
      Render(FmtMultilineChain(c, trailing, End))
      == "    " + Render(FmtEndpoint(c.source, End)) + EndOf(trailing) + StageLines(c.stages)
  {
    hide Render, FmtEndpoint, FmtStageLines, StageLines, Append, Width, LineEnd, EndOf;
    var lines := FmtStageLines(c.stages, End);
    StageLinesWritten(c.stages, End);
    Behind(End, End);
    EndShown(trailing, lines);
    EndpointAppend(c.source, End, LineEnd(trailing, lines));
    Behind(FmtEndpoint(c.source, End), LineEnd(trailing, lines));
    Then(INDENT, FmtEndpoint(c.source, LineEnd(trailing, lines)));
    BrokenChainText(Render(FmtEndpoint(c.source, End)), EndOf(trailing), StageLines(c.stages));
  }

  lemma BrokenChainText(source: string, end: string, lines: string)
    ensures "    " + (source + (end + (lines + ""))) == "    " + source + end + lines
  {}

  /** A long struct literal has a line for each field, and goes on with the `n` stages before the first match. */
  lemma LongStructIs(c: Chain, trailing: Option<string>, n: nat)
    requires IsLongStruct(c.source) && n <= |c.stages|
    requires (forall i :: 0 <= i < n ==> !c.stages[i].Match?) && (n < |c.stages| ==> c.stages[n].Match?)
    ensures
      Render(FmtMultilineChain(c, trailing, End))
      == "    " + c.source.typeName + " {\n" + FieldLines(c.source.fields) + "    }" + StagesBehind(c.stages[..n])
         + EndOf(trailing) + StageLines(c.stages[n..])
  {
    hide Render, FmtEndpoint, FmtFieldLines, FmtStages, FmtStageLines, StageLines, Append, Width, LineEnd, EndOf, FieldLines,
      StagesBehind;
    InlineCountIs(c.stages);
    var lines := FmtStageLines(c.stages[n..], End);
    StageLinesWritten(c.stages[n..], End);
    Behind(End, End);
    EndShown(trailing, lines);
    var stages := FmtStages(c.stages[..n], LineEnd(trailing, lines));
    StagesBehindWritten(c.stages[..n], LineEnd(trailing, lines));
    var last := W(INDENT, T(RBrace, stages));
    First(RBrace, stages);
    Then(INDENT, T(RBrace, stages));
    FieldLinesWritten(c.source.fields, last);
    var fields := FmtFieldLines(c.source.fields, last);
    BraceWritten(fields);
    First(Ident(c.source.typeName), W(" ", T(LBrace, NewLine(fields))));
    Then(INDENT, T(Ident(c.source.typeName), W(" ", T(LBrace, NewLine(fields)))));
    LongStructText(c.source.typeName, FieldLines(c.source.fields), StagesBehind(c.stages[..n]), EndOf(trailing),
      StageLines(c.stages[n..]));
  }

  lemma LongStructText(name: string, fields: string, stages: string, end: string, lines: string)
    ensures "    " + (name + (" {\n" + (fields + ("    " + ("}" + (stages + (end + (lines + ""))))))))
         == "    " + name + " {\n" + fields + "    }" + stages + end + lines
  {
    assert "    " + ("}" + (stages + (end + (lines + "")))) == "    }" + stages + end + lines;
  }
}
