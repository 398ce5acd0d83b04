/** The text src/fmt.rs writes for a tree and its comments. Every function takes the text that follows. */
module Formatting {
  import opened Tokens
  import opened Ast
  import opened Rendering
  import opened Comments

  const INDENT: string := "    "
  const MULTILINE_IMPORT_ITEM_LIMIT: nat := 4
  const MAX_INLINE_IMPORT_WIDTH: nat := 100
  const MAX_INLINE_STRUCT_WIDTH: nat := 100

  function Width(t: Text): nat { |Render(t)| }

  function Spaces(n: nat): (s: string)
    ensures |s| == n && AllBlank(s)
  {
    seq(n, _ => ' ')
  }

  function NewLine(k: Text): Text { W("\n", k) }

  // ---- Names and types ----

  function FmtSegments(q: QName, k: Text): Text
  {
    if q == [] then k else T(Dot, T(Ident(q[0]), FmtSegments(q[1..], k)))
  }

  function FmtQName(q: QName, k: Text): Text
  {
    if q == [] then k else T(Ident(q[0]), FmtSegments(q[1..], k))
  }

  function FmtArgs(args: seq<QName>, k: Text): Text
  {
    if args == [] then k
    else FmtQName(args[0], if |args| == 1 then k else T(Comma, FmtArgs(args[1..], k)))
  }

  function FmtRef(r: NodeRef, k: Text): Text
  {
    FmtQName(r.base, if r.args == [] then k else T(Less, FmtArgs(r.args, T(Greater, k))))
  }

  /** format_type_name puts a blank behind a comma and around a bar, and none at the end. */
  predicate BlankBetween(t: Token, u: Token) { t == Comma || t == Pipe || u == Pipe }

  function FmtTypeTail(ty: TypeText, k: Text): Text
  {
    if ty == [] then k
    else if |ty| == 1 then T(ty[0], k)
    else if BlankBetween(ty[0], ty[1]) then T(ty[0], W(" ", FmtTypeTail(ty[1..], k)))
    else T(ty[0], FmtTypeTail(ty[1..], k))
  }

  function FmtType(ty: TypeText, k: Text): Text
  {
    if ty != [] && ty[0] == Pipe then W(" ", FmtTypeTail(ty, k)) else FmtTypeTail(ty, k)
  }

  // ---- Endpoints, stages and arms ----

  function FmtEndpoint(e: Endpoint, k: Text): Text
    decreases e, 0
  {
    match e
    case Variable(n) => T(Token.Variable(n), k)
    case Name(r) => FmtRef(r, k)
    case Int(n) => T(Token.Int(n), k)
    case Real(text) => T(Token.Real(text), k)
    case RealF32(text) => T(Token.RealF32(text), k)
    case Bool(b) => T(Token.Bool(b), k)
    case Str(s) => T(Token.Str(s), k)
    case Unit => T(LParen, T(RParen, k))
    case Tuple(items) => T(LParen, FmtItems(items, T(RParen, k)))
    case Seq(items) => T(LBracket, FmtItems(items, T(RBracket, k)))
    case Struct(n, fields) => T(Ident(n), W(" ", T(LBrace, W(" ", FmtFields(fields, W(" ", T(RBrace, k)))))))
    case Eval(source, stages) => FmtEndpoint(source, FmtStages(stages, k))
  }

  function FmtItems(items: seq<Endpoint>, k: Text): Text
    decreases items
  {
    if items == [] then k
    else FmtEndpoint(items[0], if |items| == 1 then k else T(Comma, W(" ", FmtItems(items[1..], k))))
  }

  function FmtField(f: Field, k: Text): Text
    decreases f
  {
    T(Ident(f.name), T(Colon, W(" ", FmtEndpoint(f.value, k))))
  }

  function FmtFields(fields: seq<Field>, k: Text): Text
    decreases fields
  {
    if fields == [] then k
    else FmtField(fields[0], if |fields| == 1 then k else T(Comma, W(" ", FmtFields(fields[1..], k))))
  }

  /** Each stage with the arrow before it. */
  function FmtStages(stages: seq<Stage>, k: Text): Text
    decreases stages
  {
    if stages == [] then k else W(" ", T(Arrow, W(" ", FmtStage(stages[0], FmtStages(stages[1..], k)))))
  }

  function FmtStage(s: Stage, k: Text): Text
    decreases s, 0
  {
    match s
    case Value(e) => FmtEndpoint(e, k)
    case Bind(t) => FmtTarget(t, k)
    case Map(r) => T(Ident("map"), W(" ", FmtRef(r, k)))
    case FaultMap(r, ok, fault) => T(Ident("fault"), W(" ", FmtFaultMap(r, ok, fault, k)))
    case Filter(r) => T(Ident("filter"), W(" ", FmtRef(r, k)))
    case FieldOf(n) => T(Ident("field"), W(" ", T(Ident(n), k)))
    case Repeat(count, r) => T(Ident("repeat"), T(Less, FmtEndpoint(count, T(Greater, W(" ", FmtRef(r, k))))))
    case Reduce(r, identity) => T(Ident("reduce"), W(" ", FmtRef(r, FmtIdentity(identity, k))))
    case Scan(r, identity) => T(Ident("scan"), W(" ", FmtRef(r, FmtIdentity(identity, k))))
    case Match(arms) => T(Ident("match"), W(" ", T(LBrace, W(" ", FmtArms(arms, W(" ", T(RBrace, k)))))))
  }

  function FmtFaultMap(r: NodeRef, ok: string, fault: string, k: Text): Text
  {
    var faultPart := T(Ident("fault"), W(" ", T(Arrow, W(" ", T(Token.Variable(fault), W(" ", T(RBrace, k)))))));
    var okPart := T(Ident("ok"), W(" ", T(Arrow, W(" ", T(Token.Variable(ok), T(Comma, W(" ", faultPart)))))));
    T(Ident("map"), W(" ", FmtRef(r, W(" ", T(LBrace, W(" ", okPart))))))
  }

  function FmtIdentity(identity: Endpoint, k: Text): Text
    decreases identity, 1
  {
    T(LParen, T(Ident("identity"), T(Colon, W(" ", FmtEndpoint(identity, T(RParen, k))))))
  }

  function FmtTarget(t: BindingTarget, k: Text): Text
    decreases t
  {
    match t
    case Drop => T(Discard, k)
    case Bound(n) => T(Token.Variable(n), k)
    case Both(items) => T(LParen, FmtTargets(items, T(RParen, k)))
  }

  function FmtTargets(items: seq<BindingTarget>, k: Text): Text
    decreases items
  {
    if items == [] then k
    else FmtTarget(items[0], if |items| == 1 then k else T(Comma, W(" ", FmtTargets(items[1..], k))))
  }

  function FmtArms(arms: seq<MatchArm>, k: Text): Text
    decreases arms
  {
    if arms == [] then k
    else FmtArm(arms[0], if |arms| == 1 then k else W(" ", FmtArms(arms[1..], k)))
  }

  function FmtArm(arm: MatchArm, k: Text): Text
    decreases arm
  {
    FmtGuard(arm.guard, W(" ", T(Arrow, W(" ", FmtMatchTarget(arm.target, k)))))
  }

  function FmtGuard(g: MatchGuard, k: Text): Text
    decreases g
  {
    match g
    case Fallback => T(Ident("_"), k)
    case Call(r, args) => FmtRef(r, T(LParen, FmtItems(args, T(RParen, k))))
  }

  function FmtMatchTarget(t: MatchTarget, k: Text): Text
    decreases t
  {
    match t
    case ToNode(r) => FmtRef(r, k)
    case ToValue(e) => FmtEndpoint(e, k)
  }

  // ---- Ports and parameters ----

  function FmtPort(p: Port, k: Text): Text
  {
    T(Ident(p.name), T(Colon, W(" ", FmtType(p.ty, k))))
  }

  function FmtPorts(ps: seq<Port>, k: Text): Text
  {
    if ps == [] then k
    else FmtPort(ps[0], if |ps| == 1 then k else T(Comma, W(" ", FmtPorts(ps[1..], k))))
  }

  function FmtPortOrList(ps: seq<Port>, k: Text): Text
  {
    if |ps| == 1 then FmtPort(ps[0], k) else T(LParen, FmtPorts(ps, T(RParen, k)))
  }

  function FmtInputs(ps: seq<Port>, k: Text): Text
  {
    T(LParen, FmtPorts(ps, T(RParen, k)))
  }

  function FmtParam(p: NodeParam, k: Text): Text
  {
    var output := T(RParen, W(" ", T(Arrow, W(" ", FmtType(p.output, k)))));
    T(Ident(p.name), T(Colon, W(" ", T(Ident("node"), T(LParen, FmtType(p.input, output))))))
  }

  function FmtParamList(ps: seq<NodeParam>, k: Text): Text
  {
    if ps == [] then k
    else FmtParam(ps[0], if |ps| == 1 then k else T(Comma, W(" ", FmtParamList(ps[1..], k))))
  }

  function FmtParams(ps: seq<NodeParam>, k: Text): Text
  {
    if ps == [] then k else T(Less, FmtParamList(ps, T(Greater, k)))
  }

  // ---- Lines of a declaration ----

  /** The lines between the first and the last of a struct declaration. */
  function FmtStructLines(ps: seq<Port>, k: Text): Text
  {
    if ps == [] then k
    else W(INDENT, FmtPort(ps[0], T(Comma, NewLine(FmtStructLines(ps[1..], k)))))
  }

  function FmtStruct(name: string, fields: seq<Port>, k: Text): Text
  {
    T(Ident("struct"), W(" ", T(Ident(name), W(" ", T(LBrace, NewLine(FmtStructLines(fields, T(RBrace, NewLine(k)))))))))
  }

  function FmtAlias(name: string, ty: TypeText, k: Text): Text
  {
    T(Ident("type"), W(" ", T(Ident(name), W(" ", T(Equal, W(" ", FmtType(ty, NewLine(k))))))))
  }

  function FmtSource(s: ImportSource, k: Text): Text
  {
    match s
    case FromModule(path) => FmtQName(path, k)
    case FromFile(file) => T(Token.Str(file), k)
  }

  function FmtItem(i: ImportItem, k: Text): Text
  {
    T(Ident(i.name), if i.alias.None? then k else W(" ", T(Ident("as"), W(" ", T(Ident(i.alias.value), k)))))
  }

  function FmtImportItems(items: seq<ImportItem>, k: Text): Text
  {
    if items == [] then k
    else FmtItem(items[0], if |items| == 1 then k else T(Comma, W(" ", FmtImportItems(items[1..], k))))
  }

  function FmtImportLines(items: seq<ImportItem>, k: Text): Text
  {
    if items == [] then k
    else W(INDENT, FmtItem(items[0], T(Comma, NewLine(FmtImportLines(items[1..], k)))))
  }

  /** `import source` and what follows after a blank. */
  function FmtImportHead(source: ImportSource, k: Text): Text
  {
    T(Ident("import"), W(" ", FmtSource(source, W(" ", k))))
  }

  function FmtInlineImport(source: ImportSource, items: seq<ImportItem>, k: Text): Text
  {
    FmtImportHead(source, T(LBrace, W(" ", FmtImportItems(items, W(" ", T(RBrace, k))))))
  }

  /** At most four items on at most a hundred characters stay on one line. */
  predicate FitsLine(source: ImportSource, items: seq<ImportItem>)
  {
    && |items| <= MULTILINE_IMPORT_ITEM_LIMIT
    && Width(FmtInlineImport(source, items, End)) <= MAX_INLINE_IMPORT_WIDTH
  }

  function FmtImport(source: ImportSource, clause: ImportClause, k: Text): Text
  {
    match clause
    case As(alias) => FmtImportHead(source, T(Ident("as"), W(" ", T(Ident(alias), NewLine(k)))))
    case Items(items) =>
      if FitsLine(source, items) then FmtInlineImport(source, items, NewLine(k))
      else FmtImportHead(source, T(LBrace, NewLine(FmtImportLines(items, T(RBrace, NewLine(k))))))
  }

  function FmtForeignHead(language: ForeignTarget, origin: ForeignSource, k: Text): Text
  {
    T(Ident(if language.Js? then "js" else "c"), W(" ",
      match origin
      case JsModule(s) => T(Ident("module"), W(" ", T(Token.Str(s), k)))
      case JsGlobal(s) => T(Ident("global"), W(" ", T(Token.Str(s), k)))
      case CHeader(h, file) =>
        T(Ident("header"), W(" ", T(Token.Str(h),
          if file.None? then k else W(" ", T(Ident("source"), W(" ", T(Token.Str(file.value), k))))))))
    )
  }

  function FmtForeignNode(n: ForeignNode, k: Text): Text
  {
    var result := W(" ", T(Equal, W(" ", FmtQName(n.symbol, k))));
    var arrow := W(" ", T(Arrow, W(" ", FmtPortOrList(n.outputs, result))));
    var head := T(Ident("node"), W(" ", T(Ident(n.name), FmtInputs(n.inputs, arrow))));
    T(Ident(if n.effect.Pure? then "pure" else "io"), W(" ", head))
  }

  function FmtForeignLines(ns: seq<ForeignNode>, k: Text): Text
  {
    if ns == [] then k else W(INDENT, FmtForeignNode(ns[0], NewLine(FmtForeignLines(ns[1..], k))))
  }

  function FmtForeign(language: ForeignTarget, origin: ForeignSource, nodes: seq<ForeignNode>, k: Text): Text
  {
    var body := T(LBrace, NewLine(FmtForeignLines(nodes, T(RBrace, NewLine(k)))));
    T(Ident("foreign"), W(" ", FmtForeignHead(language, origin, W(" ", body))))
  }

  // ---- Chains ----

  predicate IsLongStruct(e: Endpoint)
  {
    e.Struct? && Width(FmtEndpoint(e, End)) > MAX_INLINE_STRUCT_WIDTH
  }

  predicate HasMatch(stages: seq<Stage>)
  {
    stages != [] && (stages[0].Match? || HasMatch(stages[1..]))
  }

  predicate IsMultiline(c: Chain) { HasMatch(c.stages) || IsLongStruct(c.source) }

  function FmtArmLines(arms: seq<MatchArm>, k: Text): Text
  {
    if arms == [] then k
    else W(INDENT + INDENT, FmtArm(arms[0], NewLine(FmtArmLines(arms[1..], k))))
  }

  /** A stage on lines of its own. */
  function FmtStageLine(s: Stage, k: Text): Text
  {
    W(INDENT, T(Arrow, W(" ",
      match s
      case Match(arms) =>
        T(Ident("match"), W(" ", T(LBrace, NewLine(FmtArmLines(arms, W(INDENT, T(RBrace, NewLine(k))))))))
      case _ => FmtStage(s, NewLine(k)))))
  }

  function FmtStageLines(stages: seq<Stage>, k: Text): Text
  {
    if stages == [] then k else FmtStageLine(stages[0], FmtStageLines(stages[1..], k))
  }

  function FmtFieldLines(fields: seq<Field>, k: Text): Text
  {
    if fields == [] then k
    else
      W(INDENT + INDENT, FmtField(fields[0],
        if |fields| == 1 then NewLine(k) else T(Comma, NewLine(FmtFieldLines(fields[1..], k)))))
  }

  /** A struct literal over several lines; its last line goes on with `k`. */
  function FmtLongStruct(e: Endpoint, k: Text): Text
    requires e.Struct?
  {
    W(INDENT, T(Ident(e.typeName), W(" ", T(LBrace,
      NewLine(FmtFieldLines(e.fields, W(INDENT, T(RBrace, k))))))))
  }

  /** How many stages come before the first match. */
  function InlineCount(stages: seq<Stage>): (n: nat)
    ensures n <= |stages|
  {
    if stages == [] || stages[0].Match? then 0 else 1 + InlineCount(stages[1..])
  }

  /** The end of a line with the comment behind its code. */
  function LineEnd(trailing: Option<string>, k: Text): Text
  {
    match trailing
    case None => NewLine(k)
    case Some(comment) => W("  " + comment + "\n", k)
  }

  function FmtMultilineChain(c: Chain, trailing: Option<string>, k: Text): Text
  {
    if IsLongStruct(c.source) then
      var n := InlineCount(c.stages);
      FmtLongStruct(c.source, FmtStages(c.stages[..n], LineEnd(trailing, FmtStageLines(c.stages[n..], k))))
    else W(INDENT, FmtEndpoint(c.source, LineEnd(trailing, FmtStageLines(c.stages, k))))
  }

  /** A chain on one line and the comment behind it. */
  datatype Row = Row(chain: Chain, trailing: Option<string>)

  /** Part `j` of a chain is its source or a stage. */
  function FmtPart(c: Chain, j: nat, k: Text): Text
    requires j <= |c.stages|
  {
    if j == 0 then FmtEndpoint(c.source, k) else FmtStage(c.stages[j - 1], k)
  }

  /** The width of column `j`: its widest part among the chains that have an arrow behind it. */
  function ColumnWidth(group: seq<Row>, j: nat): nat
  {
    if group == [] then 0
    else
      var c, rest := group[0].chain, ColumnWidth(group[1..], j);
      if j < |c.stages| && Width(FmtPart(c, j, End)) > rest then Width(FmtPart(c, j, End)) else rest
  }

  /** A chain from part `j` on, each part but the last padded to its column. */
  function FmtAligned(c: Chain, j: nat, group: seq<Row>, k: Text): Text
    requires j <= |c.stages|
    decreases |c.stages| - j
  {
    FmtPart(c, j,
      if j == |c.stages| then k
      else
        var width := Width(FmtPart(c, j, End));
        var pad := if ColumnWidth(group, j) > width then ColumnWidth(group, j) - width else 0;
        W(Spaces(pad) + " ", T(Arrow, W(" ", FmtAligned(c, j + 1, group, k)))))
  }

  function FmtGroup(rows: seq<Row>, group: seq<Row>, k: Text): Text
  {
    if rows == [] then k
    else W(INDENT, FmtAligned(rows[0].chain, 0, group, LineEnd(rows[0].trailing, FmtGroup(rows[1..], group, k))))
  }

  // ---- Callables and modules, after what has been written so far ----

  predicate EndsWithBlankLine(s: string)
  {
    |s| >= 2 && s[|s| - 1] == '\n' && s[|s| - 2] == '\n'
  }

  function BlankLine(acc: Text): Text
  {
    if EndsWithBlankLine(Render(acc)) then acc else Append(acc, NewLine(End))
  }

  /** flush_chain_group: the pending chains, aligned among themselves. */
  function Flush(acc: Text, group: seq<Row>): Text { Append(acc, FmtGroup(group, group, End)) }

  /** Comments on lines of their own, which are one gap. */
  function Remarks(indent: string, cs: seq<string>): Text
  {
    if cs == [] then End else W(CommentLines(indent, cs), End)
  }

  /** Whether the group of aligned chains ends before a chain with these comments. */
  predicate Breaks(c: ChainComments) { c.blank || c.leading != [] }

  /** What format_callable has written before chain `i` with these comments, when it ends the group there. */
  function Break(acc: Text, group: seq<Row>, i: nat, c: ChainComments): Text
  {
    var flushed := Flush(acc, group);
    Append(if c.blank && i > 0 then BlankLine(flushed) else flushed, Remarks(INDENT, c.leading))
  }

  /** The chains from `i` on; `group` holds the inline chains not written yet. */
  function FmtBody(acc: Text, group: seq<Row>, chains: seq<Chain>, i: nat, comments: seq<ChainComments>): Text
    requires i <= |chains|
    decreases |chains| - i
  {
    if i == |chains| then Flush(acc, group)
    else
      var c := ChainAt(comments, i);
      var acc1 := if Breaks(c) then Break(acc, group, i, c) else acc;
      var group1 := if Breaks(c) then [] else group;
      if IsMultiline(chains[i]) then
        FmtBody(Append(Flush(acc1, group1), FmtMultilineChain(chains[i], c.trailing, End)), [], chains, i + 1, comments)
      else FmtBody(acc1, group1 + [Row(chains[i], c.trailing)], chains, i + 1, comments)
  }

  function FmtHeader(kind: Text, c: Callable, k: Text): Text
  {
    var outputs := FmtPortOrList(c.outputs, W(" ", T(LBrace, NewLine(k))));
    var inputs := FmtInputs(c.inputs, W(" ", T(Arrow, W(" ", outputs))));
    Append(kind, W(" ", T(Ident(c.name), FmtParams(c.nodeParams, inputs))))
  }

  function FmtCallable(acc: Text, kind: Text, c: Callable, comments: seq<ChainComments>): Text
  {
    var body := FmtBody(Append(acc, FmtHeader(kind, c, End)), [], c.chains, 0, comments);
    Append(body, T(RBrace, NewLine(End)))
  }

  const NODE: Text := T(Ident("node"), End)
  const EXTERN_NODE: Text := T(Ident("extern"), W(" ", NODE))
  const PROGRAM: Text := T(Ident("program"), End)

  function FmtDecl(acc: Text, d: Decl, comments: seq<ChainComments>): Text
  {
    match d
    case TypeAlias(n, ty) => Append(acc, FmtAlias(n, ty, End))
    case StructDecl(n, fields) => Append(acc, FmtStruct(n, fields, End))
    case Import(source, clause) => Append(acc, FmtImport(source, clause, End))
    case Foreign(language, origin, nodes) => Append(acc, FmtForeign(language, origin, nodes, End))
    case Node(c) => FmtCallable(acc, if c.isExtern then EXTERN_NODE else NODE, c, comments)
    case Program(c) => FmtCallable(acc, PROGRAM, c, comments)
  }

  predicate NeedsBlankBetween(left: Decl, right: Decl)
  {
    !(left.Import? && right.Import?) && !(left.TypeAlias? && right.TypeAlias?) && !(left.StructDecl? && right.StructDecl?)
  }

  /** What is written before declaration `i`. */
  function Between(acc: Text, ds: seq<Decl>, i: nat, leading: seq<string>): Text
    requires i < |ds|
  {
    Append(if i > 0 && NeedsBlankBetween(ds[i - 1], ds[i]) then BlankLine(acc) else acc, Remarks("", leading))
  }

  /** Declarations from `i` on. */
  function FmtDecls(acc: Text, ds: seq<Decl>, i: nat, layout: Layout): Text
    requires i <= |ds|
    decreases |ds| - i
  {
    if i == |ds| then acc
    else
      var c := DeclAt(layout, i);
      FmtDecls(FmtDecl(Between(acc, ds, i, c.leading), ds[i], c.chains), ds, i + 1, layout)
  }

  /** format_module: only the empty module needs its newline added at the end. */
  function FmtModule(m: Module, layout: Layout): Text
  {
    var t := FmtDecls(End, m.declarations, 0, layout);
    var s := Render(t);
    if s != [] && s[|s| - 1] == '\n' then t else Append(t, NewLine(End))
  }
}
