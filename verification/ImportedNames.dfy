/** What imported names stand for, and when the imports of a file can be brought in together. */
module ImportedNames {
  import opened Ast
  import opened ImportGraph
  import Monomorphizing
  import Tokens

  // ---- The names that an import brings in ----

  /** The names a target offers, if there is such a module. */
  function NamesOf(lib: Library, target: Target): Option<set<string>>
  {
    match target
    case ToModule(k) => if k in lib.sources then Some(lib.sources[k].exports) else None
    case Builtin(m) => if m in lib.builtins && lib.builtins[m] != {} then Some(lib.builtins[m]) else None
  }

  function ItemName(item: ImportItem): string { if item.alias.Some? then item.alias.value else item.name }

  /** The import brings in the name `n` of its target under the name `a`. */
  predicate Brings(lib: Library, imp: SourceImport, n: string, a: string)
  {
    match imp.clause
    case Items(items) => exists i :: 0 <= i < |items| && items[i].name == n && ItemName(items[i]) == a
    case As(alias) => NamesOf(lib, imp.target).Some? && n in NamesOf(lib, imp.target).value && a == alias + "." + n
  }

  ghost predicate BringsIn(lib: Library, imp: SourceImport, a: string) { exists n :: Brings(lib, imp, n, a) }

  /** The target is there, has all names that are asked for, and none is given twice. */
  predicate IsClear(lib: Library, imp: SourceImport)
  {
    && NamesOf(lib, imp.target).Some?
    && (imp.clause.Items? ==>
          var items := imp.clause.items;
          && (forall i :: 0 <= i < |items| ==> items[i].name in NamesOf(lib, imp.target).value)
          && (forall i, j :: 0 <= i < j < |items| ==> ItemName(items[i]) != ItemName(items[j])))
  }

  /** No name is one of the file's own, or brought in by two imports. */
  ghost predicate IsFree(lib: Library, own: set<string>, imports: seq<SourceImport>)
  {
    && (forall m, a :: 0 <= m < |imports| && BringsIn(lib, imports[m], a) ==> a !in own)
    && (forall m, l, a :: 0 <= m < l < |imports| && BringsIn(lib, imports[m], a) ==> !BringsIn(lib, imports[l], a))
  }

  ghost predicate CanImport(lib: Library, own: set<string>, imports: seq<SourceImport>)
  {
    (forall m :: 0 <= m < |imports| ==> IsClear(lib, imports[m])) && IsFree(lib, own, imports)
  }

  // ---- One import ----

  predicate Keeps(more: References, refs: References) { forall q :: q in refs ==> q in more && more[q] == refs[q] }

  /** Exactly the given items are added. */
  ghost predicate AddsItems(more: References, refs: References, offered: References, items: seq<ImportItem>)
  {
    && Keeps(more, refs)
    && (forall i :: 0 <= i < |items| ==>
          items[i].name in offered && ItemName(items[i]) in more && more[ItemName(items[i])] == offered[items[i].name])
    && (forall q :: q in more ==> q in refs || exists i :: 0 <= i < |items| && q == ItemName(items[i]))
  }

  /** What must hold for items to be added. */
  predicate ItemsFit(refs: References, offered: References, items: seq<ImportItem>)
  {
    && (forall i :: 0 <= i < |items| ==> items[i].name in offered && ItemName(items[i]) !in refs)
    && (forall i, j :: 0 <= i < j < |items| ==> ItemName(items[i]) != ItemName(items[j]))
  }

  /** The first item, and then the others. */
  lemma ItemsStep(refs: References, offered: References, items: seq<ImportItem>)
    requires items != [] && items[0].name in offered && ItemName(items[0]) !in refs
    ensures
      var next := refs[ItemName(items[0]) := offered[items[0].name]];
      && (ItemsFit(refs, offered, items) <==> ItemsFit(next, offered, items[1..]))
      && forall more :: AddsItems(more, next, offered, items[1..]) ==> AddsItems(more, refs, offered, items)
  {
    hide ItemName;
    var rest := items[1..];
    assert forall i :: 0 <= i < |rest| ==> rest[i] == items[i + 1];
    assert forall i :: 1 <= i < |items| ==> items[i] == rest[i - 1];
  }

  lemma {:induction false} ItemsAdded(refs: References, offered: References, items: seq<ImportItem>)
    ensures InsertItems(refs, offered, items).Some? <==> ItemsFit(refs, offered, items)
    ensures InsertItems(refs, offered, items).Some? ==> AddsItems(InsertItems(refs, offered, items).value, refs, offered, items)
    decreases |items|
  {
    if items != [] && items[0].name in offered && ItemName(items[0]) !in refs {
      var next, rest := refs[ItemName(items[0]) := offered[items[0].name]], items[1..];
      assert InsertItems(refs, offered, items) == InsertItems(next, offered, rest);
      ItemsAdded(next, offered, rest);
      hide InsertItems, ItemName, Keeps;
      ItemsStep(refs, offered, items);
    }
  }

  lemma AliasAdded(refs: References, offered: References, alias: string)
    ensures InsertAll(refs, UnderAlias(offered, alias)).Some? <==> forall n :: n in offered ==> Dotted(alias, n) !in refs
    ensures
      var more := InsertAll(refs, UnderAlias(offered, alias));
      more.Some? ==>
        && Keeps(more.value, refs)
        && (forall n :: n in offered ==> Dotted(alias, n) in more.value && more.value[Dotted(alias, n)] == offered[n])
        && forall q :: q in more.value ==> q in refs || exists n :: n in offered && q == Dotted(alias, n)
  {
    hide Dotted, Undotted;
    UnderAliasIs(offered, alias);
    var under := UnderAlias(offered, alias);
    forall q | q in under ensures exists n :: n in offered && q == Dotted(alias, n) {
      assert q == Dotted(alias, Undotted(alias, q));
    }
    hide UnderAlias;
    if q :| q in refs && q in under { assert q in refs.Keys * under.Keys; }
  }

  lemma OfferedAre(lib: Library, key: ModuleKey, target: Target, index: nat)
    ensures Offered(lib, key, target, index).Some? <==> NamesOf(lib, target).Some?
    ensures Offered(lib, key, target, index).Some? ==> Offered(lib, key, target, index).value.Keys == NamesOf(lib, target).value
  {}

  /** What an import adds. */
  ghost predicate AddsNames(lib: Library, imp: SourceImport, offered: References, more: References, refs: References)
  {
    && Keeps(more, refs)
    && (forall n, a :: Brings(lib, imp, n, a) ==> n in offered && a in more && more[a] == offered[n])
    && (forall q :: q in more ==> q in refs || BringsIn(lib, imp, q))
  }

  lemma AliasBrings(lib: Library, imp: SourceImport, names: set<string>)
    requires imp.clause.As? && NamesOf(lib, imp.target) == Some(names)
    ensures forall n, a :: Brings(lib, imp, n, a) <==> n in names && a == Dotted(imp.clause.alias, n)
    ensures forall a :: BringsIn(lib, imp, a) <==> exists n :: n in names && a == Dotted(imp.clause.alias, n)
  {
    forall n | n in names
      ensures BringsIn(lib, imp, Dotted(imp.clause.alias, n))
    {
      assert Brings(lib, imp, n, Dotted(imp.clause.alias, n));
    }
  }

  lemma AliasAdds(lib: Library, refs: References, imp: SourceImport, offered: References, more: References)
    requires imp.clause.As? && NamesOf(lib, imp.target) == Some(offered.Keys) && Keeps(more, refs)
    requires
      forall n :: n in offered ==> Dotted(imp.clause.alias, n) in more && more[Dotted(imp.clause.alias, n)] == offered[n]
    requires forall q :: q in more ==> q in refs || exists n :: n in offered && q == Dotted(imp.clause.alias, n)
    ensures AddsNames(lib, imp, offered, more, refs)
  {
    AliasBrings(lib, imp, offered.Keys);
    hide Keeps, Dotted, Brings, BringsIn, NamesOf;
  }

  lemma AliasImported(lib: Library, refs: References, imp: SourceImport, offered: References)
    requires imp.clause.As? && NamesOf(lib, imp.target) == Some(offered.Keys)
    ensures AddImport(refs, offered, imp.clause).Some? <==> forall a :: BringsIn(lib, imp, a) ==> a !in refs
    ensures
      AddImport(refs, offered, imp.clause).Some? ==>
        AddsNames(lib, imp, offered, AddImport(refs, offered, imp.clause).value, refs)
  {
    var alias := imp.clause.alias;
    assert AddImport(refs, offered, imp.clause) == InsertAll(refs, UnderAlias(offered, alias));
    AliasAdded(refs, offered, alias);
    AliasBrings(lib, imp, offered.Keys);
    hide *;
    assert forall n :: n in offered ==> BringsIn(lib, imp, Dotted(alias, n));
    var r := InsertAll(refs, UnderAlias(offered, alias));
    if r.Some? {
      AliasAdds(lib, refs, imp, offered, r.value);
    }
  }

  lemma ItemsBring(lib: Library, imp: SourceImport)
    requires imp.clause.Items?
    ensures
      var items := imp.clause.items;
      && (forall n, a :: Brings(lib, imp, n, a) <==>
            exists i :: 0 <= i < |items| && items[i].name == n && ItemName(items[i]) == a)
      && (forall a :: BringsIn(lib, imp, a) <==> exists i :: 0 <= i < |items| && a == ItemName(items[i]))
  {
    var items := imp.clause.items;
    forall i | 0 <= i < |items|
      ensures BringsIn(lib, imp, ItemName(items[i]))
    {
      assert Brings(lib, imp, items[i].name, ItemName(items[i]));
    }
  }

  lemma ItemsImported(lib: Library, refs: References, imp: SourceImport, offered: References)
    requires imp.clause.Items? && NamesOf(lib, imp.target) == Some(offered.Keys)
    ensures
      AddImport(refs, offered, imp.clause).Some?
      <==> IsClear(lib, imp) && forall a :: BringsIn(lib, imp, a) ==> a !in refs
    ensures
      AddImport(refs, offered, imp.clause).Some? ==>
        AddsNames(lib, imp, offered, AddImport(refs, offered, imp.clause).value, refs)
  {
    ItemsBring(lib, imp);
    ItemsAdded(refs, offered, imp.clause.items);
    hide InsertItems, Brings, BringsIn, ItemName;
  }

  lemma ImportAdded(lib: Library, refs: References, imp: SourceImport, offered: References)
    requires NamesOf(lib, imp.target) == Some(offered.Keys)
    ensures
      AddImport(refs, offered, imp.clause).Some?
      <==> IsClear(lib, imp) && forall a :: BringsIn(lib, imp, a) ==> a !in refs
    ensures
      AddImport(refs, offered, imp.clause).Some? ==>
        AddsNames(lib, imp, offered, AddImport(refs, offered, imp.clause).value, refs)
  {
    hide AddImport, BringsIn, AddsNames;
    if imp.clause.As? {
      AliasImported(lib, refs, imp, offered);
    } else {
      ItemsImported(lib, refs, imp, offered);
    }
  }

  // ---- All imports of a file ----

  /** How many imports of built-in modules stand before the import `m`. */
  function BuiltinsBefore(imports: seq<SourceImport>, m: nat): nat
    requires m <= |imports|
  {
    if m == 0 then 0 else (if imports[0].target.Builtin? then 1 else 0) + BuiltinsBefore(imports[1..], m - 1)
  }

  /** The import `m` brings in what its target offers, and this is still there in the end. */
  ghost predicate StandsFor(lib: Library, key: ModuleKey, imports: seq<SourceImport>, index: nat, refs: References,
    m: nat)
    requires m < |imports|
  {
    var offered := Offered(lib, key, imports[m].target, index + BuiltinsBefore(imports, m));
    offered.Some?
    && forall n, a :: Brings(lib, imports[m], n, a) ==> n in offered.value && a in refs && refs[a] == offered.value[n]
  }

  ghost predicate AddsAll(lib: Library, key: ModuleKey, imports: seq<SourceImport>, index: nat, more: References,
    refs: References)
  {
    && Keeps(more, refs)
    && (forall m :: 0 <= m < |imports| ==> StandsFor(lib, key, imports, index, more, m))
    && (forall q :: q in more ==> q in refs || exists m :: 0 <= m < |imports| && BringsIn(lib, imports[m], q))
  }

  lemma ClearStep(lib: Library, own: set<string>, next: set<string>, imports: seq<SourceImport>)
    requires imports != [] && forall q :: q in next <==> q in own || BringsIn(lib, imports[0], q)
    ensures
      CanImport(lib, own, imports)
      <==> && IsClear(lib, imports[0]) && (forall a :: BringsIn(lib, imports[0], a) ==> a !in own)
           && CanImport(lib, next, imports[1..])
  {
    hide IsClear, BringsIn;
    var rest := imports[1..];
    assert forall m :: 0 <= m < |rest| ==> rest[m] == imports[m + 1];
    assert forall m :: 1 <= m < |imports| ==> imports[m] == rest[m - 1];
  }

  lemma StandsLater(lib: Library, key: ModuleKey, imports: seq<SourceImport>, index: nat, refs: References, m: nat)
    requires 1 <= m < |imports|
    requires StandsFor(lib, key, imports[1..], if imports[0].target.Builtin? then index + 1 else index, refs, m - 1)
    ensures StandsFor(lib, key, imports, index, refs, m)
  {
    hide Brings, Offered;
  }

  lemma AddsStep(lib: Library, key: ModuleKey, imports: seq<SourceImport>, index: nat, refs: References,
      offered: References, next: References, more: References)
    requires imports != [] && Offered(lib, key, imports[0].target, index) == Some(offered)
    requires AddsNames(lib, imports[0], offered, next, refs)
    requires AddsAll(lib, key, imports[1..], if imports[0].target.Builtin? then index + 1 else index, more, next)
    ensures AddsAll(lib, key, imports, index, more, refs)
  {
    hide Brings, Offered, BringsIn;
    var rest := imports[1..];
    assert forall m :: 0 <= m < |rest| ==> rest[m] == imports[m + 1];
    forall m | 0 <= m < |imports|
      ensures StandsFor(lib, key, imports, index, more, m)
    {
      if m > 0 {
        assert StandsFor(lib, key, rest, if imports[0].target.Builtin? then index + 1 else index, more, m - 1);
        hide StandsFor;
        StandsLater(lib, key, imports, index, more, m);
      }
    }
    hide StandsFor;
    forall q | q in more
      ensures q in refs || exists m :: 0 <= m < |imports| && BringsIn(lib, imports[m], q)
    {
      if m :| 0 <= m < |rest| && BringsIn(lib, rest[m], q) {
        assert BringsIn(lib, imports[m + 1], q);
      }
    }
  }

  lemma {:induction false} ImportsAdded(lib: Library, key: ModuleKey, refs: References, imports: seq<SourceImport>,
      index: nat)
    ensures
      AddImports(lib, key, refs, imports, index).Some? <==> CanImport(lib, refs.Keys, imports)
    ensures
      AddImports(lib, key, refs, imports, index).Some? ==>
        AddsAll(lib, key, imports, index, AddImports(lib, key, refs, imports, index).value, refs)
    decreases |imports|
  {
    if imports != [] {
      hide Offered, AddImport, IsFree, BringsIn, AddsAll;
      OfferedAre(lib, key, imports[0].target, index);
      var offered := Offered(lib, key, imports[0].target, index);
      if offered.Some? {
        ImportAdded(lib, refs, imports[0], offered.value);
        var next := AddImport(refs, offered.value, imports[0].clause);
        if next.Some? {
          ImportsAdded(lib, key, next.value, imports[1..], if imports[0].target.Builtin? then index + 1 else index);
          hide IsClear;
          ClearStep(lib, refs.Keys, next.value.Keys, imports);
          var all := AddImports(lib, key, next.value, imports[1..], if imports[0].target.Builtin? then index + 1 else index);
          if all.Some? {
            AddsStep(lib, key, imports, index, refs, offered.value, next.value, all.value);
          }
        } else {
          hide AddImports;
        }
      }
    }
  }

  // ---- The main file ----

  /** The main file leaves imports of built-in modules to be resolved later. */
  function SourceImports(imports: seq<SourceImport>): seq<SourceImport>
  {
    if imports == [] then []
    else (if imports[0].target.Builtin? then [] else [imports[0]]) + SourceImports(imports[1..])
  }

  lemma {:induction false} SourceImportsAre(imports: seq<SourceImport>)
    ensures forall imp :: imp in SourceImports(imports) <==> imp in imports && imp.target.ToModule?
    decreases |imports|
  {
    if imports != [] {
      SourceImportsAre(imports[1..]);
      assert imports == [imports[0]] + imports[1..];
    }
  }

  lemma {:induction false} RootAddsImports(lib: Library, key: ModuleKey, refs: References, imports: seq<SourceImport>,
      index: nat)
    ensures AddRootImports(lib, refs, imports) == AddImports(lib, key, refs, SourceImports(imports), index)
    decreases |imports|
  {
    hide AddImport;
    if imports != [] {
      if imports[0].target.Builtin? {
        assert SourceImports(imports) == SourceImports(imports[1..]);
        RootAddsImports(lib, key, refs, imports[1..], index);
      } else {
        var own := SourceImports(imports);
        assert own[1..] == SourceImports(imports[1..]);
        if imports[0].target.key in lib.sources {
          var next := AddImport(refs, Exports(lib, imports[0].target.key), imports[0].clause);
          if next.Some? {
            RootAddsImports(lib, key, next.value, imports[1..], index);
          }
        }
      }
    }
  }

  // ---- Imported names are declared ----

  /** What stands for a name that a module declares and exports stands for it wherever it is imported. */
  ghost predicate NamesAreDeclared(lib: Library, imports: seq<SourceImport>, references: References,
    units: seq<Emission>)
  {
    forall imp, n, a, j ::
      imp in imports && Brings(lib, imp, n, a) && 0 <= j < |units| && imp.target == ToModule(units[j].key)
      && units[j].key in lib.sources && n in lib.sources[units[j].key].names ==>
        a in references && n in units[j].references && references[a] == units[j].references[n]
  }

  ghost predicate UnitsAgree(lib: Library, units: seq<Emission>)
  {
    forall i :: 0 <= i < |units| && units[i].key in lib.sources ==>
      NamesAreDeclared(lib, lib.sources[units[i].key].imports, units[i].references, units)
  }

  lemma OwnNamesStay(lib: Library, key: ModuleKey)
    requires key in lib.sources && ReferencesOf(lib, key).Some?
    ensures
      forall n :: n in lib.sources[key].names ==>
        n in ReferencesOf(lib, key).value && ReferencesOf(lib, key).value[n] == InternalName(key, n)
  {
    var s := lib.sources[key];
    ImportsAdded(lib, key, map n | n in s.names :: InternalName(key, n), s.imports, 0);
    hide InternalName, AddImports, StandsFor, CanImport;
  }

  lemma ExportStands(lib: Library, key: ModuleKey, imports: seq<SourceImport>, index: nat, refs: References, m: nat,
      k: ModuleKey, n: string, a: string)
    requires m < |imports| && StandsFor(lib, key, imports, index, refs, m)
    requires imports[m].target == ToModule(k) && Brings(lib, imports[m], n, a)
    ensures k in lib.sources && a in refs && refs[a] == InternalName(k, n)
  {}

  lemma AddedAreDeclared(lib: Library, key: ModuleKey, refs: References, imports: seq<SourceImport>, index: nat,
      units: seq<Emission>)
    requires AddImports(lib, key, refs, imports, index).Some? && UnitsAreRight(lib, units)
    ensures NamesAreDeclared(lib, imports, AddImports(lib, key, refs, imports, index).value, units)
  {
    ImportsAdded(lib, key, refs, imports, index);
    hide AddImports, StandsFor, CanImport, Brings, Broken, ReferencesOf;
    var more := AddImports(lib, key, refs, imports, index).value;
    forall imp, n, a, j | imp in imports && Brings(lib, imp, n, a) && 0 <= j < |units|
                          && imp.target == ToModule(units[j].key) && units[j].key in lib.sources
                          && n in lib.sources[units[j].key].names
      ensures a in more && n in units[j].references && more[a] == units[j].references[n]
    {
      var m :| 0 <= m < |imports| && imports[m] == imp;
      ExportStands(lib, key, imports, index, more, m, units[j].key, n, a);
      OwnNamesStay(lib, units[j].key);
    }
  }

  /** Imports never dangle: not those of the emitted modules, and not those of the main file. */
  lemma ImportedNamesAreDeclared(lib: Library, root: Root, units: seq<Emission>)
    requires UnitsAreRight(lib, units)
    ensures UnitsAgree(lib, units)
    ensures
      var refs := AddRootImports(lib, map[], root.imports);
      refs.Some? ==> NamesAreDeclared(lib, root.imports, refs.value, units)
  {
    hide AddImports, AddRootImports, NamesAreDeclared, Broken;
    forall i | 0 <= i < |units| && units[i].key in lib.sources
      ensures NamesAreDeclared(lib, lib.sources[units[i].key].imports, units[i].references, units)
    {
      var s := lib.sources[units[i].key];
      AddedAreDeclared(lib, units[i].key, map n | n in s.names :: InternalName(units[i].key, n), s.imports, 0, units);
    }
    if AddRootImports(lib, map[], root.imports).Some? {
      RootImportsAreDeclared(lib, root, units);
    }
  }

  lemma RootImportsAreDeclared(lib: Library, root: Root, units: seq<Emission>)
    requires UnitsAreRight(lib, units) && AddRootImports(lib, map[], root.imports).Some?
    ensures NamesAreDeclared(lib, root.imports, AddRootImports(lib, map[], root.imports).value, units)
  {
    hide AddImports, AddRootImports, UnitsAreRight;
    RootAddsImports(lib, Flow(""), map[], root.imports, 0);
    SourceImportsAre(root.imports);
    AddedAreDeclared(lib, Flow(""), map[], SourceImports(root.imports), 0, units);
    hide SourceImports, Brings;
  }

  /** When the imports of a module, and those of the main file, can be brought in together. */
  lemma ImportsFitIff(lib: Library, root: Root, key: ModuleKey)
    ensures
      key in lib.sources ==>
        (ReferencesOf(lib, key).Some? <==> CanImport(lib, lib.sources[key].names, lib.sources[key].imports))
    ensures AddRootImports(lib, map[], root.imports).Some? <==> CanImport(lib, {}, SourceImports(root.imports))
  {
    hide AddImports, AddRootImports, CanImport, InternalName;
    RootAddsImports(lib, key, map[], root.imports, 0);
    ImportsAdded(lib, key, map[], SourceImports(root.imports), 0);
    var none: References := map[];
    assert none.Keys == {};
    if key in lib.sources {
      var s := lib.sources[key];
      var own: References := map n | n in s.names :: InternalName(key, n);
      ImportsAdded(lib, key, own, s.imports, 0);
      assert own.Keys == s.names;
    }
  }

  /** Symbols of a built-in module stand under an alias of their own import. */
  lemma BuiltinNamesStand(lib: Library, key: ModuleKey, m: nat, n: string, a: string)
    requires key in lib.sources && ReferencesOf(lib, key).Some?
    requires m < |lib.sources[key].imports| && lib.sources[key].imports[m].target.Builtin?
    requires Brings(lib, lib.sources[key].imports[m], n, a)
    ensures
      && a in ReferencesOf(lib, key).value
      && ReferencesOf(lib, key).value[a]
         == BuiltinAlias(key, BuiltinsBefore(lib.sources[key].imports, m)) + "." + n
  {
    var s := lib.sources[key];
    var own: References := map n | n in s.names :: InternalName(key, n);
    ImportsAdded(lib, key, own, s.imports, 0);
    hide AddImports, InternalName, Brings, BuiltinAlias, CanImport;
    assert StandsFor(lib, key, s.imports, 0, ReferencesOf(lib, key).value, m);
  }

  lemma {:induction false} LaterBuiltinsCountMore(imports: seq<SourceImport>, m: nat, l: nat)
    requires m < l <= |imports| && imports[m].target.Builtin?
    ensures BuiltinsBefore(imports, m) < BuiltinsBefore(imports, l)
  {
    if m > 0 {
      LaterBuiltinsCountMore(imports[1..], m - 1, l - 1);
    }
  }

  /** No two imports share an alias. */
  lemma AliasesDiffer(key: ModuleKey, imports: seq<SourceImport>, m: nat, l: nat)
    requires m < l < |imports| && imports[m].target.Builtin? && imports[l].target.Builtin?
    ensures BuiltinAlias(key, BuiltinsBefore(imports, m)) != BuiltinAlias(key, BuiltinsBefore(imports, l))
  {
    LaterBuiltinsCountMore(imports, m, l);
    var i, j := BuiltinsBefore(imports, m), BuiltinsBefore(imports, l);
    Tokens.DecimalRoundTrip(i);
    Tokens.DecimalRoundTrip(j);
    var front := InternalPrefix(key) + "_import_";
    assert BuiltinAlias(key, i)[|front|..] == Tokens.DecimalText(i);
    assert BuiltinAlias(key, j)[|front|..] == Tokens.DecimalText(j);
  }

  // ---- Names of different declarations ----

  function Plain(c: char): char { if Tokens.IsWordChar(c) then c else '_' }

  lemma {:induction false} SanitizedAt(s: string)
    ensures |Monomorphizing.Sanitize(s)| == |s|
    ensures forall i :: 0 <= i < |s| ==> Monomorphizing.Sanitize(s)[i] == Plain(s[i])
  {
    if s != "" {
      SanitizedAt(s[1..]);
      assert forall i :: 1 <= i < |s| ==> s[i] == s[1..][i - 1];
    }
  }

  /** Two declarations get one name just when module and name together differ in no letter, digit or underscore. */
  lemma NamesMergeIff(key: ModuleKey, n: string, other: ModuleKey, o: string)
    ensures
      var s, t := KeyText(key) + "_" + n, KeyText(other) + "_" + o;
      InternalName(key, n) == InternalName(other, o)
      <==> |s| == |t| && forall i :: 0 <= i < |s| ==> Plain(s[i]) == Plain(t[i])
  {
    var s, t := KeyText(key) + "_" + n, KeyText(other) + "_" + o;
    NameAt(key, n);
    NameAt(other, o);
    hide InternalName;
    var a, b := InternalName(key, n), InternalName(other, o);
    assert forall i :: 0 <= i < |s| ==> a[7 + i] == Plain(s[i]);
    assert forall i :: 0 <= i < |t| ==> b[7 + i] == Plain(t[i]);
    if |s| == |t| && forall i :: 0 <= i < |s| ==> Plain(s[i]) == Plain(t[i]) {
      assert forall i :: 7 <= i < |a| ==> a[i] == Plain(s[i - 7]) && b[i] == Plain(t[i - 7]);
      assert a == a[..7] + a[7..] && b == b[..7] + b[7..];
      assert a[7..] == b[7..];
    }
  }

  lemma NameAt(key: ModuleKey, n: string)
    ensures
      var s, r := KeyText(key) + "_" + n, InternalName(key, n);
      |r| == 7 + |s| && r[..7] == "__flow_" && forall i :: 0 <= i < |s| ==> r[7 + i] == Plain(s[i])
  {
    SanitizedAt(KeyText(key));
    SanitizedAt(n);
    hide Monomorphizing.Sanitize;
    assert |"__flow_"| == 7 && Plain('_') == '_';
  }

  /** Modules are not kept apart: files whose paths differ in a sign only give their nodes the same names. */
  lemma ModulesMayMerge(n: string)
    ensures InternalName(Local("a.b"), n) == InternalName(Local("a_b"), n)
  {
    NamesMergeIff(Local("a.b"), n, Local("a_b"), n);
    hide InternalName;
    var s, t := "a.b" + "_" + n, "a_b" + "_" + n;
    assert forall i :: 3 <= i < |s| ==> s[i] == t[i];
  }
}
