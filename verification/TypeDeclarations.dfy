/** What type aliases and structs stand for: the specification of src/typecheck.rs:1083-1301. */
module TypeDeclarations {
  import opened Ast
  import opened Types

  /** A text that does not parse is `None`. */
  datatype RawField = RawField(name: string, ty: Option<Ty>)

  datatype Raws = Raws(known: map<string, Ty>, aliases: map<string, Option<Ty>>, structs: map<string, seq<RawField>>)

  predicate IsDeclared(raws: Raws, x: string) { x in raws.aliases || x in raws.structs }

  /** New names only, each for one declaration. */
  predicate Separate(raws: Raws)
  {
    && raws.aliases.Keys !! raws.structs.Keys
    && raws.known.Keys !! raws.aliases.Keys + raws.structs.Keys
  }

  // ---- Unfolding ----

  /** A name written out, through at most `depth` declarations. */
  function UnfoldName(raws: Raws, x: string, depth: nat): Option<Ty>
    decreases depth, 0, 0
  {
    if depth == 0 then None
    else if x in raws.aliases then
      if raws.aliases[x].None? then None else UnfoldTy(raws, raws.aliases[x].value, depth - 1)
    else if x in raws.structs then
      if !DistinctFields(raws.structs[x]) then None else
        var fields :- UnfoldRaw(raws, raws.structs[x], depth - 1);
        Some(Ty.Struct(x, fields))
    else None
  }

  predicate DistinctFields(fields: seq<RawField>)
  {
    forall i, j :: 0 <= i < j < |fields| ==> fields[i].name != fields[j].name
  }

  function UnfoldRaw(raws: Raws, fields: seq<RawField>, depth: nat): Option<seq<TyField>>
    decreases depth, 2, fields
  {
    if fields == [] then Some([])
    else if fields[0].ty.None? then None
    else
      var first :- UnfoldTy(raws, fields[0].ty.value, depth);
      var rest :- UnfoldRaw(raws, fields[1..], depth);
      Some([TyField(fields[0].name, first)] + rest)
  }

  function UnfoldTy(raws: Raws, t: Ty, depth: nat): Option<Ty>
    decreases depth, 1, t
  {
    match t
    case Var(x) => if x in raws.known then Some(raws.known[x]) else UnfoldName(raws, x, depth)
    case Faultable(item) =>
      var u :- UnfoldTy(raws, item, depth);
      Some(Faultable(u))
    case Seq(item) =>
      var u :- UnfoldTy(raws, item, depth);
      Some(Ty.Seq(u))
    case Stream(item) =>
      var u :- UnfoldTy(raws, item, depth);
      Some(Stream(u))
    case OneOf(items) =>
      var us :- UnfoldAll(raws, items, depth);
      Some(OneOf(us))
    case Tuple(items) =>
      var us :- UnfoldAll(raws, items, depth);
      Some(Ty.Tuple(us))
    case Struct(name, fields) =>
      var us :- UnfoldFields(raws, fields, depth);
      Some(Ty.Struct(name, us))
    case _ => Some(t)
  }

  function UnfoldAll(raws: Raws, ts: seq<Ty>, depth: nat): Option<seq<Ty>>
    decreases depth, 1, ts
  {
    if ts == [] then Some([]) else
      var first :- UnfoldTy(raws, ts[0], depth);
      var rest :- UnfoldAll(raws, ts[1..], depth);
      Some([first] + rest)
  }

  function UnfoldFields(raws: Raws, fs: seq<TyField>, depth: nat): Option<seq<TyField>>
    decreases depth, 1, fs
  {
    if fs == [] then Some([]) else
      var first :- UnfoldTy(raws, fs[0].ty, depth);
      var rest :- UnfoldFields(raws, fs[1..], depth);
      Some([TyField(fs[0].name, first)] + rest)
  }

  /** More depth changes nothing. */
  lemma {:induction false} UnfoldMore(raws: Raws, t: Ty, depth: nat, more: nat)
    requires depth <= more && UnfoldTy(raws, t, depth).Some?
    ensures UnfoldTy(raws, t, more) == UnfoldTy(raws, t, depth)
    decreases depth, 1, t
  {
    match t
    case Var(x) => if x !in raws.known { UnfoldNameMore(raws, x, depth, more); }
    case Faultable(item) => UnfoldMore(raws, item, depth, more);
    case Seq(item) => UnfoldMore(raws, item, depth, more);
    case Stream(item) => UnfoldMore(raws, item, depth, more);
    case OneOf(items) => UnfoldAllMore(raws, items, depth, more);
    case Tuple(items) => UnfoldAllMore(raws, items, depth, more);
    case Struct(_, fields) => UnfoldFieldsMore(raws, fields, depth, more);
    case _ =>
  }

  lemma {:induction false} UnfoldAllMore(raws: Raws, ts: seq<Ty>, depth: nat, more: nat)
    requires depth <= more && UnfoldAll(raws, ts, depth).Some?
    ensures UnfoldAll(raws, ts, more) == UnfoldAll(raws, ts, depth)
    decreases depth, 1, ts
  {
    if ts != [] {
      UnfoldMore(raws, ts[0], depth, more);
      UnfoldAllMore(raws, ts[1..], depth, more);
    }
  }

  lemma {:induction false} UnfoldFieldsMore(raws: Raws, fs: seq<TyField>, depth: nat, more: nat)
    requires depth <= more && UnfoldFields(raws, fs, depth).Some?
    ensures UnfoldFields(raws, fs, more) == UnfoldFields(raws, fs, depth)
    decreases depth, 1, fs
  {
    if fs != [] {
      UnfoldMore(raws, fs[0].ty, depth, more);
      UnfoldFieldsMore(raws, fs[1..], depth, more);
    }
  }

  lemma {:induction false} UnfoldRawMore(raws: Raws, fs: seq<RawField>, depth: nat, more: nat)
    requires depth <= more && UnfoldRaw(raws, fs, depth).Some?
    ensures UnfoldRaw(raws, fs, more) == UnfoldRaw(raws, fs, depth)
    decreases depth, 2, fs
  {
    if fs != [] {
      UnfoldMore(raws, fs[0].ty.value, depth, more);
      UnfoldRawMore(raws, fs[1..], depth, more);
    }
  }

  lemma {:induction false} UnfoldNameMore(raws: Raws, x: string, depth: nat, more: nat)
    requires depth <= more && UnfoldName(raws, x, depth).Some?
    ensures UnfoldName(raws, x, more) == UnfoldName(raws, x, depth)
    decreases depth, 0, 0
  {
    if x in raws.aliases {
      UnfoldMore(raws, raws.aliases[x].value, depth - 1, more - 1);
    } else {
      UnfoldRawMore(raws, raws.structs[x], depth - 1, more - 1);
    }
  }

  /** One value for a name, whatever the depth, and so whatever the order of resolution. */
  lemma UnfoldingIsUnique(raws: Raws, x: string, depth: nat, depth': nat)
    requires UnfoldName(raws, x, depth).Some? && UnfoldName(raws, x, depth').Some?
    ensures UnfoldName(raws, x, depth) == UnfoldName(raws, x, depth')
  {
    if depth <= depth' { UnfoldNameMore(raws, x, depth, depth'); } else { UnfoldNameMore(raws, x, depth', depth); }
  }

  // ---- Defects ----

  function Names(t: Ty): set<string>
  {
    match t
    case Var(x) => {x}
    case Faultable(item) => Names(item)
    case Seq(item) => Names(item)
    case Stream(item) => Names(item)
    case OneOf(items) => NamesOfAll(items)
    case Tuple(items) => NamesOfAll(items)
    case Struct(_, fields) => NamesOfFields(fields)
    case _ => {}
  }

  function NamesOfAll(ts: seq<Ty>): set<string>
  {
    if ts == [] then {} else Names(ts[0]) + NamesOfAll(ts[1..])
  }

  function NamesOfFields(fs: seq<TyField>): set<string>
  {
    if fs == [] then {} else Names(fs[0].ty) + NamesOfFields(fs[1..])
  }

  function NamesOfRaw(fs: seq<RawField>): set<string>
  {
    if fs == [] then {} else (if fs[0].ty.Some? then Names(fs[0].ty.value) else {}) + NamesOfRaw(fs[1..])
  }

  /** The names a declaration mentions. */
  function Mentions(raws: Raws, x: string): set<string>
  {
    if x in raws.aliases then if raws.aliases[x].Some? then Names(raws.aliases[x].value) else {}
    else if x in raws.structs then NamesOfRaw(raws.structs[x])
    else {}
  }

  predicate IsMalformed(raws: Raws, x: string)
  {
    if x in raws.aliases then raws.aliases[x].None?
    else x in raws.structs && (!DistinctFields(raws.structs[x]) || exists i :: 0 <= i < |raws.structs[x]| && raws.structs[x][i].ty.None?)
  }

  predicate IsUnknown(raws: Raws, x: string) { x !in raws.known && !IsDeclared(raws, x) }

  /** Each declaration mentions the next, which is one as well. */
  predicate IsPath(raws: Raws, path: seq<string>)
  {
    && (forall i :: 0 <= i < |path| ==> IsDeclared(raws, path[i]))
    && (forall i :: 0 <= i < |path| - 1 ==> path[i + 1] in Mentions(raws, path[i]))
  }

  predicate IsCycle(raws: Raws, path: seq<string>) { |path| > 1 && IsPath(raws, path) && path[0] == path[|path| - 1] }

  /** A malformed declaration, an unknown name, or declarations that go round in a circle. */
  ghost predicate Defective(raws: Raws)
  {
    || (exists x :: IsDeclared(raws, x) && IsMalformed(raws, x))
    || (exists x, y :: IsDeclared(raws, x) && y in Mentions(raws, x) && IsUnknown(raws, y))
    || (exists path :: IsCycle(raws, path))
  }

  // ---- A declaration that unfolds is free of defects ----

  lemma {:induction false} UnfoldedNames(raws: Raws, t: Ty, depth: nat, y: string)
    requires UnfoldTy(raws, t, depth).Some? && y in Names(t)
    ensures y in raws.known || UnfoldName(raws, y, depth).Some?
    decreases t
  {
    match t
    case Var(_) =>
    case Faultable(item) => UnfoldedNames(raws, item, depth, y);
    case Seq(item) => UnfoldedNames(raws, item, depth, y);
    case Stream(item) => UnfoldedNames(raws, item, depth, y);
    case OneOf(items) => UnfoldedNamesOfAll(raws, items, depth, y);
    case Tuple(items) => UnfoldedNamesOfAll(raws, items, depth, y);
    case Struct(_, fields) => UnfoldedNamesOfFields(raws, fields, depth, y);
    case _ =>
  }

  lemma {:induction false} UnfoldedNamesOfAll(raws: Raws, ts: seq<Ty>, depth: nat, y: string)
    requires UnfoldAll(raws, ts, depth).Some? && y in NamesOfAll(ts)
    ensures y in raws.known || UnfoldName(raws, y, depth).Some?
    decreases ts
  {
    if y in Names(ts[0]) { UnfoldedNames(raws, ts[0], depth, y); } else { UnfoldedNamesOfAll(raws, ts[1..], depth, y); }
  }

  lemma {:induction false} UnfoldedNamesOfFields(raws: Raws, fs: seq<TyField>, depth: nat, y: string)
    requires UnfoldFields(raws, fs, depth).Some? && y in NamesOfFields(fs)
    ensures y in raws.known || UnfoldName(raws, y, depth).Some?
    decreases fs
  {
    if y in Names(fs[0].ty) { UnfoldedNames(raws, fs[0].ty, depth, y); } else { UnfoldedNamesOfFields(raws, fs[1..], depth, y); }
  }

  lemma {:induction false} UnfoldedNamesOfRaw(raws: Raws, fs: seq<RawField>, depth: nat)
    requires UnfoldRaw(raws, fs, depth).Some?
    ensures forall i :: 0 <= i < |fs| ==> fs[i].ty.Some?
    ensures forall y :: y in NamesOfRaw(fs) ==> y in raws.known || UnfoldName(raws, y, depth).Some?
    decreases fs
  {
    if fs != [] {
      forall y | y in Names(fs[0].ty.value)
        ensures y in raws.known || UnfoldName(raws, y, depth).Some?
      {
        UnfoldedNames(raws, fs[0].ty.value, depth, y);
      }
      UnfoldedNamesOfRaw(raws, fs[1..], depth);
    }
  }

  /** What a declaration mentions unfolds one level earlier. */
  lemma MentionsUnfold(raws: Raws, x: string, depth: nat)
    requires UnfoldName(raws, x, depth).Some?
    ensures depth > 0 && IsDeclared(raws, x) && !IsMalformed(raws, x)
    ensures forall y :: y in Mentions(raws, x) ==> y in raws.known || UnfoldName(raws, y, depth - 1).Some?
  {
    if x in raws.aliases {
      forall y | y in Mentions(raws, x)
        ensures y in raws.known || UnfoldName(raws, y, depth - 1).Some?
      {
        UnfoldedNames(raws, raws.aliases[x].value, depth - 1, y);
      }
    } else {
      UnfoldedNamesOfRaw(raws, raws.structs[x], depth - 1);
    }
  }

  /** Along a path the unfolding gets shallower. */
  lemma {:induction false} PathUnfolds(raws: Raws, path: seq<string>, depth: nat)
    requires Separate(raws) && path != [] && IsPath(raws, path) && UnfoldName(raws, path[0], depth).Some?
    ensures |path| - 1 <= depth && UnfoldName(raws, path[|path| - 1], depth - (|path| - 1)).Some?
    decreases |path|
  {
    if |path| > 1 {
      MentionsUnfold(raws, path[0], depth);
      PathUnfolds(raws, path[1..], depth - 1);
    }
  }

  /** So a name on a cycle unfolds at no depth. */
  lemma {:induction false} CyclesDoNotUnfold(raws: Raws, path: seq<string>, depth: nat)
    requires Separate(raws) && IsCycle(raws, path)
    ensures UnfoldName(raws, path[0], depth).None?
    decreases depth
  {
    if UnfoldName(raws, path[0], depth).Some? {
      PathUnfolds(raws, path, depth);
      CyclesDoNotUnfold(raws, path, depth - (|path| - 1));
    }
  }

  lemma UnfoldedIsSound(raws: Raws, depth: nat)
    requires Separate(raws) && forall x :: IsDeclared(raws, x) ==> UnfoldName(raws, x, depth).Some?
    ensures !Defective(raws)
  {
    forall x | IsDeclared(raws, x)
      ensures !IsMalformed(raws, x) && forall y :: y in Mentions(raws, x) ==> !IsUnknown(raws, y)
    {
      MentionsUnfold(raws, x, depth);
      forall y | y in Mentions(raws, x) && y !in raws.known
        ensures IsDeclared(raws, y)
      {
        MentionsUnfold(raws, y, depth - 1);
      }
    }
    forall path | IsCycle(raws, path)
      ensures false
    {
      CyclesDoNotUnfold(raws, path, depth);
    }
  }

  // ---- Types that can be represented: src/typecheck.rs:1508-1540 ----

  /** `Stream[T]` as it is imported. */
  predicate IsConstructor(t: Ty) { t.Stream? && t.item.Var? }

  /** No union and no open name, streams only if they are imported, and nothing but what is known. */
  predicate Accepts(known: set<Ty>, t: Ty)
    decreases t
  {
    match t
    case Faultable(item) => Accepts(known, item)
    case Seq(item) => Accepts(known, item)
    case Stream(item) => (exists s :: s in known && IsConstructor(s)) && Accepts(known, item)
    case OneOf(_) => false
    case Tuple(items) => forall i :: 0 <= i < |items| ==> Accepts(known, items[i])
    case Struct(_, fields) => forall i :: 0 <= i < |fields| ==> Accepts(known, fields[i].ty)
    case Var(_) => false
    case _ => t in known
  }

  /** The types of a table are the known ones and some that are accepted. */
  ghost predicate Widens(known: set<Ty>, types: set<Ty>)
  {
    known <= types && forall t :: t in types && t !in known ==> Accepts(known, t)
  }

  /** Accepted types do not make others acceptable, so the order of the checks does not matter. */
  lemma {:induction false} AcceptsSame(known: set<Ty>, types: set<Ty>, t: Ty)
    requires Widens(known, types)
    ensures Accepts(types, t) <==> Accepts(known, t)
    decreases t
  {
    match t
    case Faultable(item) => AcceptsSame(known, types, item);
    case Seq(item) => AcceptsSame(known, types, item);
    case Stream(item) =>
      AcceptsSame(known, types, item);
      forall s | s in types && IsConstructor(s) ensures s in known { if s !in known { assert Accepts(known, s.item); } }
    case Tuple(items) =>
      forall i | 0 <= i < |items| ensures Accepts(types, items[i]) <==> Accepts(known, items[i]) {
        AcceptsSame(known, types, items[i]);
      }
    case Struct(_, fields) =>
      forall i | 0 <= i < |fields| ensures Accepts(types, fields[i].ty) <==> Accepts(known, fields[i].ty) {
        AcceptsSame(known, types, fields[i].ty);
      }
    case _ =>
  }

  /** What the name stands for is accepted. */
  ghost predicate IsRepresented(raws: Raws, x: string)
  {
    exists depth: nat :: UnfoldName(raws, x, depth).Some? && Accepts(raws.known.Values, UnfoldName(raws, x, depth).value)
  }

  ghost predicate AllRepresented(raws: Raws) { forall x :: IsDeclared(raws, x) ==> IsRepresented(raws, x) }

  lemma NotRepresented(raws: Raws, x: string, depth: nat)
    requires IsDeclared(raws, x) && UnfoldName(raws, x, depth).Some?
    requires !Accepts(raws.known.Values, UnfoldName(raws, x, depth).value)
    ensures !AllRepresented(raws)
  {
    if IsRepresented(raws, x) {
      var d: nat :| UnfoldName(raws, x, d).Some? && Accepts(raws.known.Values, UnfoldName(raws, x, d).value);
      UnfoldingIsUnique(raws, x, depth, d);
    }
  }
}
