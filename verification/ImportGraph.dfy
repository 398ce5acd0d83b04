/** The modules behind imports: what src/module_resolver.rs has to bring together, and when it cannot. */
module ImportGraph {
  import opened Ast
  import Monomorphizing
  import Tokens

  /** A source file of the standard library, or a local one by its normalised path. */
  datatype ModuleKey = Flow(name: string) | Local(path: string)

  datatype Target = ToModule(key: ModuleKey) | Builtin(name: string)

  datatype SourceImport = SourceImport(target: Target, clause: ImportClause)

  /** `sound`: no program in it, and every listed export is a type or an extern node of the module. */
  datatype Source = Source(names: set<string>, exports: set<string>, imports: seq<SourceImport>, sound: bool)

  /** The files that can be read and parsed, and the symbols of the built-in modules. */
  datatype Library = Library(sources: map<ModuleKey, Source>, builtins: map<string, set<string>>)

  type References = map<string, string>

  // ---- Names, src/module_resolver.rs:928-962 ----

  function KeyText(key: ModuleKey): string { if key.Flow? then key.name else key.path }

  function InternalPrefix(key: ModuleKey): string { "__flow_" + Monomorphizing.Sanitize(KeyText(key)) }

  function InternalName(key: ModuleKey, name: string): string
  {
    InternalPrefix(key) + "_" + Monomorphizing.Sanitize(name)
  }

  function Exports(lib: Library, key: ModuleKey): References
    requires key in lib.sources
  {
    map n | n in lib.sources[key].exports :: InternalName(key, n)
  }

  // ---- References ----

  /** A name is brought in once. */
  function Insert(refs: References, name: string, internal: string): Option<References>
  {
    if name in refs then None else Some(refs[name := internal])
  }

  function InsertItems(refs: References, offered: References, items: seq<ImportItem>): Option<References>
    decreases |items|
  {
    if items == [] then Some(refs)
    else if items[0].name !in offered then None
    else
      var name := if items[0].alias.Some? then items[0].alias.value else items[0].name;
      var next :- Insert(refs, name, offered[items[0].name]);
      InsertItems(next, offered, items[1..])
  }

  function Dotted(alias: string, name: string): string { alias + "." + name }

  function Undotted(alias: string, q: string): string { if |q| > |alias| then q[|alias| + 1..] else q }

  lemma UndottedIsName(alias: string, name: string)
    ensures Undotted(alias, Dotted(alias, name)) == name
  {}

  function DottedNames(names: set<string>, alias: string): set<string> { set n | n in names :: Dotted(alias, n) }

  /** All names under an alias. */
  function UnderAlias(offered: References, alias: string): References
  {
    map q | q in DottedNames(offered.Keys, alias) && Undotted(alias, q) in offered :: offered[Undotted(alias, q)]
  }

  lemma UnderAliasIs(offered: References, alias: string)
    ensures
      var under := UnderAlias(offered, alias);
      && (forall n :: n in offered ==> Dotted(alias, n) in under && under[Dotted(alias, n)] == offered[n])
      && (forall n :: Undotted(alias, Dotted(alias, n)) == n)
      && (forall q :: q in under ==> Undotted(alias, q) in offered && q == Dotted(alias, Undotted(alias, q)))
  {
    forall n: string
      ensures Undotted(alias, Dotted(alias, n)) == n
    {
      UndottedIsName(alias, n);
    }
    hide Dotted, Undotted;
    forall n | n in offered
      ensures Dotted(alias, n) in UnderAlias(offered, alias)
    {
      assert Dotted(alias, n) in DottedNames(offered.Keys, alias);
    }
  }

  function InsertAll(refs: References, more: References): Option<References>
  {
    if refs.Keys !! more.Keys then Some(refs + more) else None
  }

  /** The names that an import offers, and what they stand for; nothing when there is no such module. */
  function Offered(lib: Library, key: ModuleKey, target: Target, index: nat): Option<References>
  {
    match target
    case ToModule(k) => if k in lib.sources then Some(Exports(lib, k)) else None
    case Builtin(m) =>
      if m !in lib.builtins || lib.builtins[m] == {} then None
      else Some(map s | s in lib.builtins[m] :: BuiltinAlias(key, index) + "." + s)
  }

  /** Built-in modules are imported again, each under a made-up alias. */
  function BuiltinAlias(key: ModuleKey, index: nat): string
  {
    InternalPrefix(key) + "_import_" + Tokens.DecimalText(index)
  }

  function AddImport(refs: References, offered: References, clause: ImportClause): Option<References>
  {
    match clause
    case Items(items) => InsertItems(refs, offered, items)
    case As(alias) => InsertAll(refs, UnderAlias(offered, alias))
  }

  function AddImports(lib: Library, key: ModuleKey, refs: References, imports: seq<SourceImport>, index: nat)
    : Option<References>
    decreases |imports|
  {
    if imports == [] then Some(refs) else
      var offered :- Offered(lib, key, imports[0].target, index);
      var next :- AddImport(refs, offered, imports[0].clause);
      AddImports(lib, key, next, imports[1..], if imports[0].target.Builtin? then index + 1 else index)
  }

  /** What every name in a module stands for; nothing when a name is missing or brought in twice. */
  function ReferencesOf(lib: Library, key: ModuleKey): Option<References>
    requires key in lib.sources
  {
    var s := lib.sources[key];
    AddImports(lib, key, map n | n in s.names :: InternalName(key, n), s.imports, 0)
  }

  // ---- The program ----

  /** The main file: its callables, and its imports from source modules. */
  datatype Root = Root(callables: set<string>, imports: seq<SourceImport>)

  function AddRootImports(lib: Library, refs: References, imports: seq<SourceImport>): Option<References>
    decreases |imports|
  {
    if imports == [] then Some(refs)
    else if imports[0].target.Builtin? then AddRootImports(lib, refs, imports[1..])
    else if imports[0].target.key !in lib.sources then None
    else
      var next :- AddImport(refs, Exports(lib, imports[0].target.key), imports[0].clause);
      AddRootImports(lib, next, imports[1..])
  }

  predicate HasNoDot(name: string) { '.' !in name }

  predicate RootIsSound(lib: Library, root: Root)
  {
    var refs := AddRootImports(lib, map[], root.imports);
    refs.Some? && forall n :: n in refs.value && HasNoDot(n) ==> n !in root.callables
  }

  function ImportedKeys(imports: seq<SourceImport>): set<ModuleKey>
  {
    set i | 0 <= i < |imports| && imports[i].target.ToModule? :: imports[i].target.key
  }

  /** Files of the standard library only import from there. */
  predicate Broken(lib: Library, key: ModuleKey)
  {
    || key !in lib.sources
    || !lib.sources[key].sound
    || ReferencesOf(lib, key).None?
    || (key.Flow? && exists k: ModuleKey :: k in ImportedKeys(lib.sources[key].imports) && k.Local?)
  }

  predicate Imports(imports: seq<SourceImport>, key: ModuleKey)
  {
    exists i :: 0 <= i < |imports| && imports[i].target == ToModule(key)
  }

  /** A way from the main file, import by import. */
  predicate IsImportPath(lib: Library, root: Root, path: seq<ModuleKey>)
  {
    && path != [] && Imports(root.imports, path[0])
    && forall i :: 0 <= i < |path| - 1 ==>
         path[i] in lib.sources && Imports(lib.sources[path[i]].imports, path[i + 1])
  }

  ghost predicate Reachable(lib: Library, root: Root, key: ModuleKey)
  {
    exists path :: IsImportPath(lib, root, path) && path[|path| - 1] == key
  }

  predicate ComesBack(path: seq<ModuleKey>) { path != [] && path[|path| - 1] in path[..|path| - 1] }

  /** A broken module, or a circle of imports, within reach of the main file. */
  ghost predicate Unresolvable(lib: Library, root: Root)
  {
    exists path :: IsImportPath(lib, root, path) && (Broken(lib, path[|path| - 1]) || ComesBack(path))
  }

  // ---- The result ----

  /** The declarations of a module with its names replaced. */
  datatype Emission = Emission(key: ModuleKey, references: References)

  /** Every import of a module stands before it. */
  predicate ImportsFirst(lib: Library, units: seq<Emission>)
  {
    forall i, j :: 0 <= i < |units| && units[i].key in lib.sources && 0 <= j < |lib.sources[units[i].key].imports|
                   && lib.sources[units[i].key].imports[j].target.ToModule? ==>
      exists h :: 0 <= h < i && units[h].key == lib.sources[units[i].key].imports[j].target.key
  }

  predicate EachOnce(units: seq<Emission>) { forall i, j :: 0 <= i < j < |units| ==> units[i].key != units[j].key }

  predicate UnitsAreRight(lib: Library, units: seq<Emission>)
  {
    forall i :: 0 <= i < |units| ==>
      !Broken(lib, units[i].key) && ReferencesOf(lib, units[i].key) == Some(units[i].references)
  }

  predicate Emitted(units: seq<Emission>, key: ModuleKey) { exists i :: 0 <= i < |units| && units[i].key == key }

  /** Units that are complete from the root down leave nothing to be unresolvable. */
  lemma {:induction false} PathIsEmitted(lib: Library, root: Root, units: seq<Emission>, path: seq<ModuleKey>)
    requires ImportsFirst(lib, units) && UnitsAreRight(lib, units) && IsImportPath(lib, root, path)
    requires forall k :: Imports(root.imports, k) ==> Emitted(units, k)
    ensures Emitted(units, path[|path| - 1])
    decreases |path|
  {
    if |path| > 1 {
      var front := path[..|path| - 1];
      var a, b := path[|path| - 2], path[|path| - 1];
      PathIsEmitted(lib, root, units, front);
      var i :| 0 <= i < |units| && units[i].key == a;
      var j :| 0 <= j < |lib.sources[a].imports| && lib.sources[a].imports[j].target == ToModule(b);
      var h :| 0 <= h < i && units[h].key == b;
    }
  }

  /** Along a path the units come earlier and earlier. */
  lemma {:induction false} PathGoesBack(lib: Library, units: seq<Emission>, path: seq<ModuleKey>, i: nat,
      p: nat) returns (h: nat)
    requires ImportsFirst(lib, units) && EachOnce(units)
    requires p < |path| && i < |units| && units[i].key == path[p]
    requires forall q :: p <= q < |path| - 1 ==>
               path[q] in lib.sources && Imports(lib.sources[path[q]].imports, path[q + 1])
    ensures h < |units| && units[h].key == path[|path| - 1] && h <= i && (p < |path| - 1 ==> h < i)
    decreases |path| - p
  {
    if p == |path| - 1 {
      h := i;
    } else {
      var j :| 0 <= j < |lib.sources[path[p]].imports| && lib.sources[path[p]].imports[j].target == ToModule(path[p + 1]);
      var n :| 0 <= n < i && units[n].key == path[p + 1];
      h := PathGoesBack(lib, units, path, n, p + 1);
    }
  }

  /** A path to an emitted unit has come to no module before. */
  lemma PathIsSound(lib: Library, root: Root, units: seq<Emission>, path: seq<ModuleKey>)
    requires ImportsFirst(lib, units) && EachOnce(units) && UnitsAreRight(lib, units) && IsImportPath(lib, root, path)
    requires forall k :: Imports(root.imports, k) ==> Emitted(units, k)
    ensures Emitted(units, path[|path| - 1]) && !Broken(lib, path[|path| - 1]) && !ComesBack(path)
  {
    hide Broken, ReferencesOf, ImportsFirst, Imports;
    var n := |path| - 1;
    PathIsEmitted(lib, root, units, path);
    if path[n] in path[..n] {
      var p :| 0 <= p < n && path[p] == path[n];
      PathIsEmitted(lib, root, units, path[..p + 1]);
      var i :| 0 <= i < |units| && units[i].key == path[p];
      var h := PathGoesBack(lib, units, path, i, p);
    }
  }

  lemma EmittedIsSound(lib: Library, root: Root, units: seq<Emission>)
    requires ImportsFirst(lib, units) && EachOnce(units) && UnitsAreRight(lib, units)
    requires forall k :: Imports(root.imports, k) ==> Emitted(units, k)
    ensures !Unresolvable(lib, root)
    ensures forall k :: Reachable(lib, root, k) ==> Emitted(units, k)
  {
    hide IsImportPath, Broken, ComesBack, ImportsFirst, EachOnce, UnitsAreRight, Imports, Emitted;
    forall path | IsImportPath(lib, root, path)
      ensures path != [] && Emitted(units, path[|path| - 1]) && !Broken(lib, path[|path| - 1]) && !ComesBack(path)
    {
      PathNotEmpty(lib, root, path);
      PathIsSound(lib, root, units, path);
    }
  }

  lemma PathNotEmpty(lib: Library, root: Root, path: seq<ModuleKey>)
    requires IsImportPath(lib, root, path)
    ensures path != []
  {}
}
