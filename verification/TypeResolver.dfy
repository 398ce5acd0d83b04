/** The resolution of src/typecheck.rs:1083-1301: depth first, with a table of results and the stack of open names. */
module TypeResolver {
  import opened Ast
  import opened Types
  import opened TypeDeclarations

  datatype TypeDecl =
    | AliasDecl(name: string, ty: Option<Ty>)
    | FieldsDecl(name: string, fields: seq<RawField>)
    | OtherDecl

  // ---- Reading the declarations ----

  /** The declarations by name; none for a name declared twice. */
  function Collected(known: map<string, Ty>, ds: seq<TypeDecl>): Option<Raws>
  {
    if ds == [] then Some(Raws(known, map[], map[])) else
      var raws :- Collected(known, ds[..|ds| - 1]);
      match ds[|ds| - 1]
      case AliasDecl(x, ty) =>
        if x in known || IsDeclared(raws, x) then None else Some(raws.(aliases := raws.aliases[x := ty]))
      case FieldsDecl(x, fields) =>
        if x in known || IsDeclared(raws, x) then None else Some(raws.(structs := raws.structs[x := fields]))
      case OtherDecl => Some(raws)
  }

  lemma {:induction false} CollectedIsSeparate(known: map<string, Ty>, ds: seq<TypeDecl>)
    requires Collected(known, ds).Some?
    ensures Separate(Collected(known, ds).value) && Collected(known, ds).value.known == known
  {
    if ds != [] { CollectedIsSeparate(known, ds[..|ds| - 1]); }
  }

  // ---- The state ----

  /** Every entry is an unfolding, of some depth not greater than `depth`. */
  ghost predicate Entries(raws: Raws, table: map<string, Ty>, depth: nat)
  {
    forall x :: x in table ==> IsDeclared(raws, x) && UnfoldName(raws, x, depth) == Some(table[x])
  }

  lemma EntriesMore(raws: Raws, table: map<string, Ty>, depth: nat, more: nat)
    requires Entries(raws, table, depth) && depth <= more
    ensures Entries(raws, table, more)
  {
    forall x | x in table
      ensures UnfoldName(raws, x, more) == Some(table[x])
    {
      UnfoldNameMore(raws, x, depth, more);
    }
  }

  predicate NoneTwice(path: seq<string>) { forall i, j :: 0 <= i < j < |path| ==> path[i] != path[j] }

  /** The names are mentioned by the declaration on top of the stack. */
  ghost predicate Within(raws: Raws, path: seq<string>, names: set<string>)
  {
    path != [] && names <= Mentions(raws, path[|path| - 1])
  }

  class TypeResolver {
    ghost const raws: Raws
    const aliases: map<string, Option<Ty>>
    const structs: map<string, seq<RawField>>
    var types: map<string, Ty>
    var resolved: map<string, Ty>
    var resolving: seq<string>
    ghost var depth: nat

    ghost predicate Valid()
      reads this
    {
      && Separate(raws) && aliases == raws.aliases && structs == raws.structs
      && Entries(raws, resolved, depth)
      && (forall x :: x in types ==> if x in raws.known then types[x] == raws.known[x] else x in resolved && types[x] == resolved[x])
      && (forall x :: x in raws.known ==> x in types)
      && (forall x :: x in types && x !in raws.known ==> Accepts(raws.known.Values, types[x]))
      && IsPath(raws, resolving) && NoneTwice(resolving)
    }

    /** Names that are not open yet. */
    ghost function Room(): set<string>
      reads this
    {
      raws.aliases.Keys + raws.structs.Keys - set x | x in resolving
    }

    /** What one step of resolution keeps. */
    twostate predicate Kept()
      reads this
    {
      && Valid() && resolving == old(resolving) && types == old(types) && old(depth) <= depth
      && forall x :: x in old(resolved) ==> x in resolved && resolved[x] == old(resolved)[x]
    }

    constructor (raws: Raws)
      requires Separate(raws)
      ensures Valid() && this.raws == raws && types == raws.known && resolved == map[] && resolving == []
    {
      this.raws := raws;
      aliases := raws.aliases;
      structs := raws.structs;
      types := raws.known;
      resolved := map[];
      resolving := [];
      depth := 0;
    }

    /** Opening a name that is open already closes a cycle. */
    lemma Reopened(x: string)
      requires Valid() && x in resolving && Within(raws, resolving, {x})
      ensures Defective(raws)
    {
      var i :| 0 <= i < |resolving| && resolving[i] == x;
      var path := resolving[i..] + [x];
      assert IsPath(raws, path) by {
        forall j | 0 <= j < |path| - 1
          ensures path[j + 1] in Mentions(raws, path[j])
        {
          if j + 1 < |resolving| - i { assert resolving[i + j + 1] in Mentions(raws, resolving[i + j]); }
        }
      }
      assert IsCycle(raws, path);
    }

    method Open(x: string)
      requires Valid() && IsDeclared(raws, x) && x !in resolving && (resolving == [] || Within(raws, resolving, {x}))
      modifies this`resolving
      ensures Valid() && resolving == old(resolving) + [x]
      ensures Room() < old(Room())
    {
      resolving := resolving + [x];
      assert x in old(Room()) && x !in Room();
    }

    method Close(x: string, ty: Ty)
      requires Valid() && resolving != [] && resolving[|resolving| - 1] == x && IsDeclared(raws, x)
      requires UnfoldName(raws, x, depth + 1) == Some(ty) && x !in types
      modifies this`resolving, this`resolved, this`depth
      ensures Valid() && resolving == old(resolving)[..|old(resolving)| - 1]
      ensures resolved == old(resolved)[x := ty] && depth == old(depth) + 1
    {
      resolving := resolving[..|resolving| - 1];
      EntriesMore(raws, resolved, depth, depth + 1);
      resolved := resolved[x := ty];
      depth := depth + 1;
    }

    method ResolveTypeAlias(x: string) returns (r: Option<Ty>)
      requires Valid() && x in raws.aliases && (resolving == [] || Within(raws, resolving, {x})) && x !in types
      modifies this
      ensures r.Some? ==> Kept() && UnfoldName(raws, x, depth) == r && x in resolved
      ensures r.None? ==> Defective(raws)
      decreases Room(), 0, 0
    {
      if x in resolved {
        return Some(resolved[x]);
      }
      if x in resolving {
        Reopened(x);
        return None;
      }
      var parsed := aliases[x];
      Open(x);
      if parsed.None? {
        assert IsMalformed(raws, x);
        return None;
      }
      hide Entries, IsPath, NoneTwice, Defective;
      var ty := ResolveTypeAliasType(parsed.value);
      if ty.None? {
        return None;
      }
      Close(x, ty.value);
      return ty;
    }

    method ResolveStructType(x: string) returns (r: Option<Ty>)
      requires Valid() && x in raws.structs && (resolving == [] || Within(raws, resolving, {x})) && x !in types
      modifies this
      ensures r.Some? ==> Kept() && UnfoldName(raws, x, depth) == r && x in resolved
      ensures r.None? ==> Defective(raws)
      decreases Room(), 0, 0
    {
      if x in resolved {
        return Some(resolved[x]);
      }
      if x in resolving {
        Reopened(x);
        return None;
      }
      var fields := structs[x];
      Open(x);
      hide Entries, IsPath, NoneTwice, Defective;
      var items := ResolveFields(x, fields);
      if items.None? {
        return None;
      }
      var ty := Ty.Struct(x, items.value);
      Close(x, ty);
      return Some(ty);
    }

    method ResolveFields(x: string, fields: seq<RawField>) returns (r: Option<seq<TyField>>)
      requires Valid() && x in raws.structs && raws.structs[x] == fields
      requires resolving != [] && resolving[|resolving| - 1] == x
      modifies this
      ensures r.Some? ==> Kept() && UnfoldRaw(raws, fields, depth) == r && DistinctFields(fields)
      ensures r.None? ==> Defective(raws)
      decreases Room(), 2, 0
    {
      hide Names, NamesOfRaw, Mentions, UnfoldTy, UnfoldRaw, Entries, IsPath, NoneTwice, Defective, IsMalformed;
      var us: seq<TyField> := [];
      for i := 0 to |fields|
        invariant Kept()
        invariant |us| == i && DistinctFields(fields[..i])
        invariant forall j :: 0 <= j < i ==>
          us[j].name == fields[j].name && fields[j].ty.Some?
          && UnfoldTy(raws, fields[j].ty.value, depth) == Some(us[j].ty)
      {
        var field := fields[i];
        FieldFacts(x, i);
        if exists j :: 0 <= j < |us| && us[j].name == field.name {
          assert !DistinctFields(fields);
          return None;
        }
        if field.ty.None? {
          return None;
        }
        ghost var before := depth;
        var u := ResolveTypeAliasType(field.ty.value);
        if u.None? {
          return None;
        }
        forall j | 0 <= j < i
          ensures UnfoldTy(raws, fields[j].ty.value, depth) == Some(us[j].ty)
        {
          UnfoldMore(raws, fields[j].ty.value, before, depth);
        }
        us := us + [TyField(field.name, u.value)];
      }
      assert fields[..|fields|] == fields;
      RawPointwise(fields, us, depth);
      return Some(us);
    }

    /** A field of a struct mentions what the struct mentions, and its faults are those of the struct. */
    lemma FieldFacts(x: string, i: nat)
      requires Separate(raws) && x in raws.structs && i < |raws.structs[x]|
      ensures raws.structs[x][i].ty.Some? ==> Names(raws.structs[x][i].ty.value) <= Mentions(raws, x)
      ensures raws.structs[x][i].ty.None? || !DistinctFields(raws.structs[x]) ==> Defective(raws)
    {
      if raws.structs[x][i].ty.Some? { FieldNames(raws.structs[x], i); }
      assert IsDeclared(raws, x) && x !in raws.aliases;
      if raws.structs[x][i].ty.None? || !DistinctFields(raws.structs[x]) { assert IsMalformed(raws, x); }
    }

    lemma {:induction false} FieldNames(fields: seq<RawField>, i: nat)
      requires i < |fields| && fields[i].ty.Some?
      ensures Names(fields[i].ty.value) <= NamesOfRaw(fields)
    {
      if i > 0 { FieldNames(fields[1..], i - 1); }
    }

    lemma {:induction false} RawPointwise(fs: seq<RawField>, us: seq<TyField>, depth: nat)
      requires |us| == |fs| && forall j :: 0 <= j < |fs| ==>
        us[j].name == fs[j].name && fs[j].ty.Some? && UnfoldTy(raws, fs[j].ty.value, depth) == Some(us[j].ty)
      ensures UnfoldRaw(raws, fs, depth) == Some(us)
      decreases fs
    {
      if fs != [] {
        RawPointwise(fs[1..], us[1..], depth);
        assert us == [us[0]] + us[1..];
      }
    }

    method ResolveTypeAliasType(t: Ty) returns (r: Option<Ty>)
      requires Valid() && Within(raws, resolving, Names(t))
      modifies this
      ensures r.Some? ==> Kept() && UnfoldTy(raws, t, depth) == r
      ensures r.None? ==> Defective(raws)
      decreases Room(), 1, t
    {
      match t
      case Var(x) =>
        if x in types {
          if x !in raws.known { assert UnfoldName(raws, x, depth) == Some(types[x]); }
          return Some(types[x]);
        } else if x in aliases {
          r := ResolveTypeAlias(x);
        } else if x in structs {
          r := ResolveStructType(x);
        } else {
          assert IsUnknown(raws, x);
          return None;
        }
      case Faultable(item) =>
        var u := ResolveTypeAliasType(item);
        return if u.None? then None else Some(Faultable(u.value));
      case Seq(item) =>
        var u := ResolveTypeAliasType(item);
        return if u.None? then None else Some(Ty.Seq(u.value));
      case Stream(item) =>
        var u := ResolveTypeAliasType(item);
        return if u.None? then None else Some(Stream(u.value));
      case OneOf(items) =>
        var us := ResolveItems(items);
        return if us.None? then None else Some(OneOf(us.value));
      case Tuple(items) =>
        var us := ResolveItems(items);
        return if us.None? then None else Some(Ty.Tuple(us.value));
      case Struct(name, fields) =>
        var us := ResolveTypeFields(fields);
        return if us.None? then None else Some(Ty.Struct(name, us.value));
      case _ => return Some(t);
    }

    method ResolveItems(ts: seq<Ty>) returns (r: Option<seq<Ty>>)
      requires Valid() && Within(raws, resolving, NamesOfAll(ts))
      modifies this
      ensures r.Some? ==> Kept() && UnfoldAll(raws, ts, depth) == r
      ensures r.None? ==> Defective(raws)
      decreases Room(), 1, ts
    {
      var us: seq<Ty> := [];
      for i := 0 to |ts|
        invariant Kept()
        invariant Within(raws, resolving, NamesOfAll(ts[i..]))
        invariant |us| == i && forall j :: 0 <= j < i ==> UnfoldTy(raws, ts[j], depth) == Some(us[j])
      {
        assert ts[i..][1..] == ts[i + 1..];
        ghost var before := depth;
        var u := ResolveTypeAliasType(ts[i]);
        if u.None? {
          return None;
        }
        forall j | 0 <= j < i
          ensures UnfoldTy(raws, ts[j], depth) == Some(us[j])
        {
          UnfoldMore(raws, ts[j], before, depth);
        }
        us := us + [u.value];
      }
      Pointwise(ts, us, depth);
      return Some(us);
    }

    lemma {:induction false} Pointwise(ts: seq<Ty>, us: seq<Ty>, depth: nat)
      requires |us| == |ts| && forall j :: 0 <= j < |ts| ==> UnfoldTy(raws, ts[j], depth) == Some(us[j])
      ensures UnfoldAll(raws, ts, depth) == Some(us)
      decreases ts
    {
      if ts != [] {
        Pointwise(ts[1..], us[1..], depth);
        assert us == [us[0]] + us[1..];
      }
    }

    method ResolveTypeFields(fs: seq<TyField>) returns (r: Option<seq<TyField>>)
      requires Valid() && Within(raws, resolving, NamesOfFields(fs))
      modifies this
      ensures r.Some? ==> Kept() && UnfoldFields(raws, fs, depth) == r
      ensures r.None? ==> Defective(raws)
      decreases Room(), 1, fs
    {
      var us: seq<TyField> := [];
      for i := 0 to |fs|
        invariant Kept()
        invariant Within(raws, resolving, NamesOfFields(fs[i..]))
        invariant |us| == i && forall j :: 0 <= j < i ==>
          us[j].name == fs[j].name && UnfoldTy(raws, fs[j].ty, depth) == Some(us[j].ty)
      {
        assert fs[i..][1..] == fs[i + 1..];
        ghost var before := depth;
        var u := ResolveTypeAliasType(fs[i].ty);
        if u.None? {
          return None;
        }
        forall j | 0 <= j < i
          ensures UnfoldTy(raws, fs[j].ty, depth) == Some(us[j].ty)
        {
          UnfoldMore(raws, fs[j].ty, before, depth);
        }
        us := us + [TyField(fs[i].name, u.value)];
      }
      FieldsPointwise(fs, us, depth);
      return Some(us);
    }

    lemma {:induction false} FieldsPointwise(fs: seq<TyField>, us: seq<TyField>, depth: nat)
      requires |us| == |fs| && forall j :: 0 <= j < |fs| ==>
        us[j].name == fs[j].name && UnfoldTy(raws, fs[j].ty, depth) == Some(us[j].ty)
      ensures UnfoldFields(raws, fs, depth) == Some(us)
      decreases fs
    {
      if fs != [] {
        FieldsPointwise(fs[1..], us[1..], depth);
        assert us == [us[0]] + us[1..];
      }
    }

    lemma AllUnfolded()
      requires Valid() && forall x :: x in types <==> x in raws.known || x in raws.structs || x in raws.aliases
      ensures !Defective(raws) && AllRepresented(raws)
      ensures types.Keys == raws.known.Keys + raws.structs.Keys + raws.aliases.Keys
      ensures forall x :: x in raws.known ==> types[x] == raws.known[x]
      ensures forall x :: x in types && x !in raws.known ==> UnfoldName(raws, x, depth) == Some(types[x])
    {
      UnfoldedIsSound(raws, depth);
      forall x | IsDeclared(raws, x) ensures IsRepresented(raws, x) { assert UnfoldName(raws, x, depth) == Some(types[x]); }
    }

    // ---- The check of what a name stands for ----

    method ValidateDeclaredType(t: Ty) returns (ok: bool)
      ensures ok == Accepts(types.Values, t)
      decreases t
    {
      match t
      case Faultable(item) => ok := ValidateDeclaredType(item);
      case Seq(item) => ok := ValidateDeclaredType(item);
      case Stream(item) =>
        if !exists s :: s in types.Values && IsConstructor(s) {
          return false;
        }
        ok := ValidateDeclaredType(item);
      case OneOf(_) => return false;
      case Tuple(items) =>
        for i := 0 to |items|
          invariant forall j :: 0 <= j < i ==> Accepts(types.Values, items[j])
        {
          ok := ValidateDeclaredType(items[i]);
          if !ok {
            return;
          }
        }
        return true;
      case Struct(_, fields) =>
        for i := 0 to |fields|
          invariant forall j :: 0 <= j < i ==> Accepts(types.Values, fields[j].ty)
        {
          ok := ValidateDeclaredType(fields[i].ty);
          if !ok {
            return;
          }
        }
        return true;
      case Var(_) => return false;
      case _ => return t in types.Values;
    }

    /** Whatever has been published so far. */
    lemma Widened()
      requires Valid()
      ensures Widens(raws.known.Values, types.Values)
    {
      hide Accepts, Entries, IsPath, NoneTwice, Separate;
      forall t | t in raws.known.Values ensures t in types.Values {
        var x :| x in raws.known && raws.known[x] == t;
        assert types[x] == t;
      }
    }

    /** Checks a resolved name and enters it into the table. */
    method Accept(x: string, ty: Ty) returns (ok: bool)
      requires Valid() && resolving == [] && x !in raws.known && x in resolved && UnfoldName(raws, x, depth) == Some(ty)
      modifies this`types
      ensures ok ==> Valid() && types == old(types)[x := ty]
      ensures !ok ==> !AllRepresented(raws)
    {
      ok := ValidateDeclaredType(ty);
      Widened();
      AcceptsSame(raws.known.Values, types.Values, ty);
      if !ok {
        assert IsDeclared(raws, x);
        NotRepresented(raws, x, depth);
        return;
      }
      Publish(x, ty);
    }

    /** Structs first, then aliases, each in any order. */
    method ResolveAll() returns (ok: bool)
      requires Valid() && types == raws.known && resolved == map[] && resolving == []
      modifies this
      ensures ok <==> !Defective(raws) && AllRepresented(raws)
      ensures ok ==> types.Keys == raws.known.Keys + raws.structs.Keys + raws.aliases.Keys
      ensures ok ==> forall x :: x in types ==>
        if x in raws.known then types[x] == raws.known[x] else UnfoldName(raws, x, depth) == Some(types[x])
    {
      ok := ResolveStructs();
      if !ok {
        return;
      }
      ok := ResolveAliases();
      if ok {
        AllUnfolded();
      }
    }

    method ResolveStructs() returns (ok: bool)
      requires Valid() && resolving == []
      requires forall x :: x in types <==> x in raws.known
      modifies this
      ensures ok ==> Valid() && resolving == [] && forall x :: x in types <==> x in raws.known || x in raws.structs
      ensures !ok ==> Defective(raws) || !AllRepresented(raws)
    {
      assert structs == raws.structs;
      hide *;
      var pending := structs.Keys;
      while pending != {}
        invariant Valid() && resolving == [] && pending <= raws.structs.Keys
        invariant forall x :: x in types <==> x in raws.known || (x in raws.structs && x !in pending)
        decreases |pending|
      {
        var x :| x in pending;
        NotKnown(x);
        var ty := ResolveStructType(x);
        if ty.None? {
          return false;
        }
        ok := Accept(x, ty.value);
        if !ok {
          return;
        }
        pending := pending - {x};
      }
      return true;
    }

    method ResolveAliases() returns (ok: bool)
      requires Valid() && resolving == []
      requires forall x :: x in types <==> x in raws.known || x in raws.structs
      modifies this
      ensures ok ==> Valid() && resolving == []
      ensures ok ==> forall x :: x in types <==> x in raws.known || x in raws.structs || x in raws.aliases
      ensures !ok ==> Defective(raws) || !AllRepresented(raws)
    {
      assert aliases == raws.aliases;
      hide *;
      var pending := aliases.Keys;
      while pending != {}
        invariant Valid() && resolving == [] && pending <= raws.aliases.Keys
        invariant forall x :: x in types <==> x in raws.known || x in raws.structs || (x in raws.aliases && x !in pending)
        decreases |pending|
      {
        var x :| x in pending;
        NotKnown(x);
        var ty := ResolveTypeAlias(x);
        if ty.None? {
          return false;
        }
        ok := Accept(x, ty.value);
        if !ok {
          return;
        }
        pending := pending - {x};
      }
      return true;
    }

    lemma NotKnown(x: string)
      requires Valid()
      ensures x in raws.structs ==> x !in raws.known && x !in raws.aliases
      ensures x in raws.aliases ==> x !in raws.known && x !in raws.structs
    {}

    method Publish(x: string, ty: Ty)
      requires Valid() && x !in raws.known && x in resolved && UnfoldName(raws, x, depth) == Some(ty)
      requires Accepts(raws.known.Values, ty)
      modifies this`types
      ensures Valid() && types == old(types)[x := ty]
    {
      types := types[x := ty];
    }
  }

  /** The table of all types, or nothing when a name is declared twice, is defective or has no representation. */
  method ResolveDeclarations(known: map<string, Ty>, ds: seq<TypeDecl>) returns (r: Option<map<string, Ty>>,
      ghost depth: nat)
    ensures r.Some? <==>
      Collected(known, ds).Some? && !Defective(Collected(known, ds).value) && AllRepresented(Collected(known, ds).value)
    ensures r.Some? ==>
      var raws := Collected(known, ds).value;
      && r.value.Keys == known.Keys + raws.structs.Keys + raws.aliases.Keys
      && forall x :: x in r.value ==>
           if x in known then r.value[x] == known[x] else UnfoldName(raws, x, depth) == Some(r.value[x])
  {
    depth := 0;
    var aliases: map<string, Option<Ty>> := map[];
    var structs: map<string, seq<RawField>> := map[];
    for i := 0 to |ds|
      invariant Collected(known, ds[..i]) == Some(Raws(known, aliases, structs))
    {
      assert ds[..i + 1][..i] == ds[..i];
      match ds[i] {
        case AliasDecl(x, ty) =>
          if x in known || x in aliases || x in structs {
            CollectedFails(known, ds, i + 1);
            return None, 0;
          }
          aliases := aliases[x := ty];
        case FieldsDecl(x, fields) =>
          if x in known || x in aliases || x in structs {
            CollectedFails(known, ds, i + 1);
            return None, 0;
          }
          structs := structs[x := fields];
        case OtherDecl =>
      }
    }
    assert ds[..|ds|] == ds;
    CollectedIsSeparate(known, ds);
    var resolver := new TypeResolver(Raws(known, aliases, structs));
    var ok := resolver.ResolveAll();
    if !ok {
      return None, 0;
    }
    return Some(resolver.types), resolver.depth;
  }

  lemma {:induction false} CollectedFails(known: map<string, Ty>, ds: seq<TypeDecl>, i: nat)
    requires i <= |ds| && Collected(known, ds[..i]).None?
    ensures Collected(known, ds).None?
    decreases |ds| - i
  {
    if i < |ds| {
      assert ds[..i + 1][..i] == ds[..i];
      CollectedFails(known, ds, i + 1);
    } else {
      assert ds[..i] == ds;
    }
  }
}
