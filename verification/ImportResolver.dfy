/** The resolver of src/module_resolver.rs:114-475: a depth-first walk with a table of exports and a set of open modules. */
module ImportResolver {
  import opened Ast
  import opened ImportGraph
  import opened ImportedNames
  import Tokens

  /** The open modules, from the main file down. */
  ghost predicate IsStack(lib: Library, root: Root, stack: seq<ModuleKey>, resolving: set<ModuleKey>)
  {
    && (stack != [] ==> IsImportPath(lib, root, stack))
    && (forall k :: k in resolving <==> k in stack)
    && (forall k :: k in stack ==> k in lib.sources)
  }

  /** The module is imported by the one on top of the stack. */
  ghost predicate IsNext(lib: Library, root: Root, stack: seq<ModuleKey>, key: ModuleKey)
  {
    if stack == [] then Imports(root.imports, key)
    else stack[|stack| - 1] in lib.sources && Imports(lib.sources[stack[|stack| - 1]].imports, key)
  }

  lemma NextIsPath(lib: Library, root: Root, stack: seq<ModuleKey>, key: ModuleKey)
    requires (stack != [] ==> IsImportPath(lib, root, stack)) && IsNext(lib, root, stack, key)
    ensures IsImportPath(lib, root, stack + [key])
  {}

  lemma EmissionAppended(lib: Library, units: seq<Emission>, u: Emission)
    requires ImportsFirst(lib, units) && EachOnce(units) && UnitsAreRight(lib, units)
    requires !Emitted(units, u.key) && !Broken(lib, u.key) && ReferencesOf(lib, u.key) == Some(u.references)
    requires forall k :: k in ImportedKeys(lib.sources[u.key].imports) ==> Emitted(units, k)
    ensures ImportsFirst(lib, units + [u]) && EachOnce(units + [u]) && UnitsAreRight(lib, units + [u])
    ensures forall k :: Emitted(units + [u], k) <==> Emitted(units, k) || k == u.key
  {
    hide Broken, ReferencesOf;
    var more := units + [u];
    assert forall i :: 0 <= i < |units| ==> more[i] == units[i];
    assert more[|units|] == u;
    forall i, j | 0 <= i < |more| && more[i].key in lib.sources && 0 <= j < |lib.sources[more[i].key].imports|
                  && lib.sources[more[i].key].imports[j].target.ToModule?
      ensures exists h :: 0 <= h < i && more[h].key == lib.sources[more[i].key].imports[j].target.key
    {
      var k := lib.sources[more[i].key].imports[j].target.key;
      if i < |units| {
        var h :| 0 <= h < i && units[h].key == k;
        assert more[h].key == k;
      } else {
        assert k in ImportedKeys(lib.sources[u.key].imports);
        var h :| 0 <= h < |units| && units[h].key == k;
        assert more[h].key == k;
      }
    }
    forall k | Emitted(units, k)
      ensures Emitted(more, k)
    {
      var i :| 0 <= i < |units| && units[i].key == k;
      assert more[i].key == k;
    }
  }

  lemma BrokenWhen(lib: Library, key: ModuleKey)
    ensures key !in lib.sources || !lib.sources[key].sound ==> Broken(lib, key)
    ensures key in lib.sources && lib.sources[key].sound && ReferencesOf(lib, key).Some?
            && (key.Flow? ==> forall k :: k in ImportedKeys(lib.sources[key].imports) ==> k.Flow?)
            ==> !Broken(lib, key)
  {}

  /** What cannot be resolved in the imports of a module. */
  lemma BrokenBy(lib: Library, root: Root, stack: seq<ModuleKey>, resolving: set<ModuleKey>)
    requires IsStack(lib, root, stack, resolving) && stack != [] && stack[|stack| - 1] in lib.sources
    ensures ReferencesOf(lib, stack[|stack| - 1]).None? ==> Unresolvable(lib, root)
  {
    hide ReferencesOf;
  }

  /** One import after the other. */
  lemma AddNext(lib: Library, key: ModuleKey, refs: References, imports: seq<SourceImport>, i: nat, index: nat)
    requires i < |imports|
    ensures
      AddImports(lib, key, refs, imports[i..], index)
      == match Offered(lib, key, imports[i].target, index)
         case None => None
         case Some(offered) =>
           match AddImport(refs, offered, imports[i].clause)
           case None => None
           case Some(next) => AddImports(lib, key, next, imports[i + 1..], if imports[i].target.Builtin? then index + 1 else index)
  {
    hide Offered, AddImport;
    assert imports[i..][1..] == imports[i + 1..];
  }

  lemma ImportIsNext(lib: Library, root: Root, stack: seq<ModuleKey>, resolving: set<ModuleKey>, i: nat)
    requires IsStack(lib, root, stack, resolving) && stack != [] && stack[|stack| - 1] in lib.sources
             && i < |lib.sources[stack[|stack| - 1]].imports|
    requires lib.sources[stack[|stack| - 1]].imports[i].target.ToModule?
    ensures
      var imports := lib.sources[stack[|stack| - 1]].imports;
      && IsNext(lib, root, stack, imports[i].target.key)
      && (stack[|stack| - 1].Flow? && imports[i].target.key.Local? ==> Unresolvable(lib, root))
  {
    hide ReferencesOf, IsImportPath;
    var imports := lib.sources[stack[|stack| - 1]].imports;
    assert imports[i].target.key in ImportedKeys(imports);
  }

  lemma OffersExports(lib: Library, key: ModuleKey, k: ModuleKey, index: nat)
    requires k in lib.sources
    ensures Offered(lib, key, ToModule(k), index) == Some(Exports(lib, k))
  {}

  lemma AllImports(lib: Library, key: ModuleKey)
    requires key in lib.sources
    ensures
      var s := lib.sources[key];
      AddImports(lib, key, map n | n in s.names :: InternalName(key, n), s.imports[0..], 0) == ReferencesOf(lib, key)
  {
    assert lib.sources[key].imports[0..] == lib.sources[key].imports;
    hide AddImports, InternalName;
  }

  lemma NoImports(lib: Library, key: ModuleKey, refs: References, index: nat)
    ensures AddImports(lib, key, refs, [], index) == Some(refs)
  {}

  lemma AllImported(imports: seq<SourceImport>, done: set<ModuleKey>, flow: bool)
    requires
      forall j :: 0 <= j < |imports| && imports[j].target.ToModule? ==>
        imports[j].target.key in done && (flow ==> imports[j].target.key.Flow?)
    ensures forall k :: k in ImportedKeys(imports) ==> k in done && (flow ==> k.Flow?)
  {}

  lemma ReachableBy(lib: Library, root: Root, path: seq<ModuleKey>, key: ModuleKey)
    requires IsImportPath(lib, root, path) && path[|path| - 1] == key
    ensures Reachable(lib, root, key)
  {}

  // ---- Names of one import ----

  method AddNames(references: References, offered: References, clause: ImportClause) returns (r: Option<References>)
    ensures r == AddImport(references, offered, clause)
  {
    match clause
    case Items(items) =>
      var current := references;
      for i := 0 to |items|
        invariant InsertItems(current, offered, items[i..]) == InsertItems(references, offered, items)
      {
        assert items[i..][1..] == items[i + 1..];
        var name := if items[i].alias.Some? then items[i].alias.value else items[i].name;
        if items[i].name !in offered || name in current {
          return None;
        }
        current := current[name := offered[items[i].name]];
      }
      return Some(current);
    case As(alias) =>
      r := AddAllNames(references, offered, alias);
  }

  lemma BothAre(both: References, a: References, b: References)
    requires forall q :: q in both <==> q in a || q in b
    requires forall q :: q in a ==> q !in b && both[q] == a[q]
    requires forall q :: q in b ==> both[q] == b[q]
    ensures both == a + b && a.Keys !! b.Keys
  {}

  /** In any order. */
  method AddAllNames(references: References, offered: References, alias: string) returns (r: Option<References>)
    ensures r == InsertAll(references, UnderAlias(offered, alias))
  {
    hide UnderAlias, Dotted, Undotted;
    UnderAliasIs(offered, alias);
    ghost var under := UnderAlias(offered, alias);
    var current := references;
    var pending := offered.Keys;
    while pending != {}
      invariant pending <= offered.Keys
      invariant forall q :: q in current <==> q in references || (q in under && Undotted(alias, q) !in pending)
      invariant forall q :: q in references ==> current[q] == references[q]
      invariant forall q :: q in under && Undotted(alias, q) !in pending ==> current[q] == under[q] && q !in references
      decreases |pending|
    {
      var n :| n in pending;
      var q := Dotted(alias, n);
      if q in current {
        assert q in references && q in under;
        return None;
      }
      current := current[q := offered[n]];
      pending := pending - {n};
    }
    BothAre(current, references, under);
    return Some(current);
  }

  predicate Extends(before: seq<Emission>, after: seq<Emission>) { before <= after }

  lemma ExtendsSelf(a: seq<Emission>)
    ensures Extends(a, a)
  {}

  lemma ExtendsOn(a: seq<Emission>, b: seq<Emission>, c: seq<Emission>)
    requires Extends(a, b) && Extends(b, c)
    ensures Extends(a, c)
  {}

  class Resolver {
    const lib: Library
    ghost const root: Root
    var modules: map<ModuleKey, References>
    var resolving: set<ModuleKey>
    var declarations: seq<Emission>

    ghost predicate Valid()
      reads this
    {
      && (forall k :: k in modules ==> k in lib.sources && modules[k] == Exports(lib, k) && Emitted(declarations, k))
      && (forall i :: 0 <= i < |declarations| ==> declarations[i].key in modules && Reachable(lib, root, declarations[i].key))
      && ImportsFirst(lib, declarations) && EachOnce(declarations) && UnitsAreRight(lib, declarations)
      && (forall k :: k in resolving ==> k !in modules)
    }

    constructor (lib: Library, ghost root: Root)
      ensures Valid() && this.lib == lib && this.root == root && resolving == {} && declarations == []
    {
      this.lib := lib;
      this.root := root;
      modules := map[];
      resolving := {};
      declarations := [];
    }

    /** Modules that are neither open nor done. */
    ghost function Room(): set<ModuleKey>
      reads this
    {
      lib.sources.Keys - resolving
    }

    twostate predicate Grew()
      reads this
    {
      && Valid() && resolving == old(resolving) && old(modules).Keys <= modules.Keys
      && Extends(old(declarations), declarations)
    }

    method ExpandModule(key: ModuleKey, ghost stack: seq<ModuleKey>) returns (ok: bool)
      requires Valid() && IsStack(lib, root, stack, resolving) && IsNext(lib, root, stack, key)
      modifies this
      ensures ok ==> Grew() && key in modules
      ensures !ok ==> Unresolvable(lib, root)
      decreases Room(), 0
    {
      hide Broken, ReferencesOf, ImportsFirst, EachOnce, UnitsAreRight, Reachable, Emitted, IsImportPath, Exports, Imports;
      if key in modules {
        return true;
      }
      ghost var path := stack + [key];
      NextIsPath(lib, root, stack, key);
      if key in resolving {
        assert path[..|path| - 1] == stack && ComesBack(path);
        return false;
      }
      resolving := resolving + {key};
      BrokenWhen(lib, key);
      assert path[|path| - 1] == key;
      if key !in lib.sources {
        return false;
      }
      assert key in old(Room()) && key !in Room();
      var source := lib.sources[key];
      var references := InsertLocals(key);
      var all := ImportAll(key, references, path);
      if all.None? {
        return false;
      }
      if !source.sound {
        return false;
      }
      Finish(key, all.value, path);
      return true;
    }

    method InsertLocals(key: ModuleKey) returns (references: References)
      requires key in lib.sources
      ensures references == map n | n in lib.sources[key].names :: InternalName(key, n)
    {
      references := map[];
      var pending := lib.sources[key].names;
      while pending != {}
        invariant pending <= lib.sources[key].names
        invariant references == map n | n in lib.sources[key].names - pending :: InternalName(key, n)
        decreases |pending|
      {
        var n :| n in pending;
        references := references[n := InternalName(key, n)];
        pending := pending - {n};
      }
    }

    /** The names of a built-in module under its made-up alias, if there is such a module. */
    method BuiltinNames(key: ModuleKey, name: string, index: nat) returns (offered: Option<References>)
      ensures offered == Offered(lib, key, Builtin(name), index)
    {
      if name !in lib.builtins || lib.builtins[name] == {} {
        return None;
      }
      return Some(map s | s in lib.builtins[name] :: BuiltinAlias(key, index) + "." + s);
    }

    lemma TableIsExports(key: ModuleKey)
      requires Valid() && key in modules
      ensures key in lib.sources && modules[key] == Exports(lib, key)
    {}

    /** The names that one import of an open module offers; a source module is expanded first. */
    method OfferedNames(key: ModuleKey, i: nat, index: nat, ghost path: seq<ModuleKey>) returns (offered: Option<References>)
      requires Valid() && key in lib.sources && IsStack(lib, root, path, resolving)
      requires path != [] && path[|path| - 1] == key && i < |lib.sources[key].imports|
      modifies this
      ensures
        var target := lib.sources[key].imports[i].target;
        && (offered.Some? ==> Grew() && offered == Offered(lib, key, target, index))
        && (offered.Some? && target.ToModule? ==> target.key in modules && (key.Flow? ==> target.key.Flow?))
        && (offered.None? ==> Unresolvable(lib, root) || Offered(lib, key, target, index).None?)
      decreases Room(), 1
    {
      hide Broken, ReferencesOf, AddImports, AddImport, ImportsFirst, EachOnce, UnitsAreRight, Reachable, Emitted,
           IsImportPath, Imports,
           Unresolvable, Exports, Valid, ImportedKeys, IsNext, IsStack, Offered, InternalName, Extends;
      var target := lib.sources[key].imports[i].target;
      if target.Builtin? {
        assert Extends(declarations, declarations) by { ExtendsSelf(declarations); }
        offered := BuiltinNames(key, target.name, index);
        return;
      }
      ImportIsNext(lib, root, path, resolving, i);
      if key.Flow? && target.key.Local? {
        return None;
      }
      var ok := ExpandModule(target.key, path);
      if !ok {
        return None;
      }
      TableIsExports(target.key);
      OffersExports(lib, key, target.key, index);
      return Some(modules[target.key]);
    }

    /** The names of one import of an open module are added to those before. */
    method ImportNames(key: ModuleKey, references: References, i: nat, index: nat, ghost path: seq<ModuleKey>)
      returns (next: Option<References>)
      requires Valid() && key in lib.sources && IsStack(lib, root, path, resolving)
      requires path != [] && path[|path| - 1] == key && i < |lib.sources[key].imports|
      requires AddImports(lib, key, references, lib.sources[key].imports[i..], index) == ReferencesOf(lib, key)
      modifies this
      ensures next.None? ==> Unresolvable(lib, root)
      ensures
        next.Some? ==>
          var imports := lib.sources[key].imports;
          && Grew()
          && AddImports(lib, key, next.value, imports[i + 1..], if imports[i].target.Builtin? then index + 1 else index)
             == ReferencesOf(lib, key)
          && (imports[i].target.ToModule? ==> imports[i].target.key in modules && (key.Flow? ==> imports[i].target.key.Flow?))
      decreases Room(), 2
    {
      hide Broken, ReferencesOf, AddImports, AddImport, ImportsFirst, EachOnce, UnitsAreRight, Reachable, Emitted,
           IsImportPath, Imports,
           Unresolvable, Exports, Valid, ImportedKeys, IsNext, IsStack, Offered, InternalName, Extends;
      AddNext(lib, key, references, lib.sources[key].imports, i, index);
      BrokenBy(lib, root, path, resolving);
      var offered := OfferedNames(key, i, index, path);
      if offered.None? {
        return None;
      }
      next := AddNames(references, offered.value, lib.sources[key].imports[i].clause);
    }

    /** The imports of an open module, each expanded before its names are taken. */
    method ImportAll(key: ModuleKey, start: References, ghost path: seq<ModuleKey>) returns (r: Option<References>)
      requires Valid() && key in lib.sources && IsStack(lib, root, path, resolving)
      requires path != [] && path[|path| - 1] == key
      requires start == map n | n in lib.sources[key].names :: InternalName(key, n)
      modifies this
      ensures r.Some? ==> Grew() && r == ReferencesOf(lib, key)
      ensures r.Some? ==> forall k :: k in ImportedKeys(lib.sources[key].imports) ==> k in modules
      ensures r.Some? && key.Flow? ==> forall k :: k in ImportedKeys(lib.sources[key].imports) ==> k.Flow?
      ensures r.None? ==> Unresolvable(lib, root)
      decreases Room(), 3
    {
      var imports := lib.sources[key].imports;
      var references := start;
      var index: nat := 0;
      hide Broken, ReferencesOf, AddImports, AddImport, ImportsFirst, EachOnce, UnitsAreRight, Reachable, Emitted,
           IsImportPath, Imports,
           Unresolvable, Exports, Valid, ImportedKeys, IsNext, IsStack, Offered, InternalName, Extends;
      AllImports(lib, key);
      ExtendsSelf(declarations);
      for i := 0 to |imports|
        invariant Grew()
        invariant AddImports(lib, key, references, imports[i..], index) == ReferencesOf(lib, key)
        invariant forall j :: 0 <= j < i && imports[j].target.ToModule? ==>
          imports[j].target.key in modules && (key.Flow? ==> imports[j].target.key.Flow?)
      {
        ghost var before := declarations;
        var next := ImportNames(key, references, i, index, path);
        if next.None? {
          return None;
        }
        ExtendsOn(old(declarations), before, declarations);
        references := next.value;
        if imports[i].target.Builtin? {
          index := index + 1;
        }
      }
      assert AddImports(lib, key, references, [], index) == Some(references) by { NoImports(lib, key, references, index); }
      assert imports[|imports|..] == [];
      AllImported(imports, modules.Keys, key.Flow?);
      return Some(references);
    }

    /** The module is done: its exports go into the table, its declarations after those before. */
    method Finish(key: ModuleKey, references: References, ghost path: seq<ModuleKey>)
      requires Valid() && key in resolving && key in lib.sources && key !in modules
      requires IsImportPath(lib, root, path) && path[|path| - 1] == key
      requires !Broken(lib, key) && ReferencesOf(lib, key) == Some(references)
      requires forall k :: k in ImportedKeys(lib.sources[key].imports) ==> k in modules
      modifies this
      ensures Valid() && resolving == old(resolving) - {key} && modules == old(modules)[key := Exports(lib, key)]
      ensures declarations == old(declarations) + [Emission(key, references)]
    {
      resolving := resolving - {key};
      modules := modules[key := Exports(lib, key)];
      EmissionAppended(lib, declarations, Emission(key, references));
      ReachableBy(lib, root, path, key);
      declarations := declarations + [Emission(key, references)];
    }

    /** The main file comes last; its own names must not clash with imported ones. */
    method ResolveSources(callables: set<string>, imports: seq<SourceImport>) returns (r: Option<References>)
      requires Valid() && resolving == {} && declarations == [] && root == Root(callables, imports)
      modifies this
      ensures r.Some? <==> RootIsSound(lib, root) && !Unresolvable(lib, root)
      ensures r.Some? ==>
        && r == AddRootImports(lib, map[], imports)
        && ImportsFirst(lib, declarations) && EachOnce(declarations) && UnitsAreRight(lib, declarations)
        && (forall k :: Emitted(declarations, k) <==> Reachable(lib, root, k))
        && NamesAreDeclared(lib, imports, r.value, declarations) && UnitsAgree(lib, declarations)
    {
      hide NamesAreDeclared, UnitsAgree;
      var references: References := map[];
      for i := 0 to |imports|
        invariant Valid() && resolving == {}
        invariant AddRootImports(lib, references, imports[i..]) == AddRootImports(lib, map[], imports)
        invariant forall j :: 0 <= j < i && imports[j].target.ToModule? ==> imports[j].target.key in modules
      {
        assert imports[i..][1..] == imports[i + 1..];
        if imports[i].target.ToModule? {
          var ok := ExpandModule(imports[i].target.key, []);
          if !ok {
            return None;
          }
          var next := AddNames(references, modules[imports[i].target.key], imports[i].clause);
          if next.None? {
            return None;
          }
          references := next.value;
        }
      }
      assert imports[|imports|..] == [];
      EmittedIsSound(lib, root, declarations);
      ImportedNamesAreDeclared(lib, root, declarations);
      if exists n :: n in references && HasNoDot(n) && n in callables {
        return None;
      }
      return Some(references);
    }
  }
}
