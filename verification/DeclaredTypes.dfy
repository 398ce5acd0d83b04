/** What a declared type stands for and which types can be represented, place by place: src/typecheck.rs:1083-1301, 1508-1540. */
module DeclaredTypes {
  import opened Ast
  import opened Types
  import opened TypeDeclarations

  // ---- Unfolding ----

  /** The name stands for the type through at most `depth` declarations. */
  ghost predicate NameStandsFor(raws: Raws, x: string, u: Ty, depth: nat)
    decreases depth, 0, 0
  {
    && depth > 0
    && if x in raws.aliases then raws.aliases[x].Some? && StandsFor(raws, raws.aliases[x].value, u, depth - 1)
       else
         && x in raws.structs && DistinctFields(raws.structs[x])
         && u.Struct? && u.name == x && AreFields(raws, raws.structs[x], u.fields, depth - 1)
  }

  ghost predicate AreFields(raws: Raws, fields: seq<RawField>, us: seq<TyField>, depth: nat)
    decreases depth, 2, 0
  {
    && |us| == |fields|
    && forall i :: 0 <= i < |fields| ==>
         fields[i].ty.Some? && us[i].name == fields[i].name && StandsFor(raws, fields[i].ty.value, us[i].ty, depth)
  }

  /** The same type with what each name in it stands for at the place of the name. */
  ghost predicate StandsFor(raws: Raws, t: Ty, u: Ty, depth: nat)
    decreases depth, 1, t
  {
    match t
    case Var(x) => if x in raws.known then u == raws.known[x] else NameStandsFor(raws, x, u, depth)
    case Faultable(item) => u.Faultable? && StandsFor(raws, item, u.item, depth)
    case Seq(item) => u.Seq? && StandsFor(raws, item, u.item, depth)
    case Stream(item) => u.Stream? && StandsFor(raws, item, u.item, depth)
    case OneOf(items) =>
      u.OneOf? && |u.items| == |items| && forall i :: 0 <= i < |items| ==> StandsFor(raws, items[i], u.items[i], depth)
    case Tuple(items) =>
      u.Tuple? && |u.items| == |items| && forall i :: 0 <= i < |items| ==> StandsFor(raws, items[i], u.items[i], depth)
    case Struct(name, fields) =>
      && u.Struct? && u.name == name && |u.fields| == |fields|
      && forall i :: 0 <= i < |fields| ==>
           u.fields[i].name == fields[i].name && StandsFor(raws, fields[i].ty, u.fields[i].ty, depth)
    case _ => u == t
  }

  /** Unfolding finds what a type stands for, and fails exactly when it stands for nothing so far. */
  lemma {:induction false} UnfoldedIff(raws: Raws, t: Ty, u: Ty, depth: nat)
    ensures UnfoldTy(raws, t, depth) == Some(u) <==> StandsFor(raws, t, u, depth)
    decreases depth, 1, t
  {
    match t
    case Var(x) => if x !in raws.known { NameUnfoldedIff(raws, x, u, depth); }
    case Faultable(item) => if u.Faultable? { UnfoldedIff(raws, item, u.item, depth); }
    case Seq(item) => if u.Seq? { UnfoldedIff(raws, item, u.item, depth); }
    case Stream(item) => if u.Stream? { UnfoldedIff(raws, item, u.item, depth); }
    case OneOf(items) => if u.OneOf? { AllUnfoldedIff(raws, items, u.items, depth); }
    case Tuple(items) => if u.Tuple? { AllUnfoldedIff(raws, items, u.items, depth); }
    case Struct(name, fields) => if u.Struct? { FieldsUnfoldedIff(raws, fields, u.fields, depth); }
    case _ =>
  }

  lemma {:induction false} NameUnfoldedIff(raws: Raws, x: string, u: Ty, depth: nat)
    ensures UnfoldName(raws, x, depth) == Some(u) <==> NameStandsFor(raws, x, u, depth)
    decreases depth, 0, 0
  {
    hide UnfoldTy, UnfoldRaw, StandsFor, AreFields;
    if depth > 0 {
      if x in raws.aliases {
        if raws.aliases[x].Some? { UnfoldedIff(raws, raws.aliases[x].value, u, depth - 1); }
      } else if x in raws.structs && u.Struct? {
        RawUnfoldedIff(raws, raws.structs[x], u.fields, depth - 1);
      }
    }
  }

  lemma {:induction false} AllUnfoldedIff(raws: Raws, ts: seq<Ty>, us: seq<Ty>, depth: nat)
    ensures
      UnfoldAll(raws, ts, depth) == Some(us)
      <==> |us| == |ts| && forall i :: 0 <= i < |ts| ==> StandsFor(raws, ts[i], us[i], depth)
    decreases depth, 1, ts
  {
    hide UnfoldTy, StandsFor;
    if ts != [] && us != [] {
      UnfoldedIff(raws, ts[0], us[0], depth);
      AllUnfoldedIff(raws, ts[1..], us[1..], depth);
      if |us| == |ts| && forall i :: 0 <= i < |ts| ==> StandsFor(raws, ts[i], us[i], depth) {
        assert forall i :: 0 <= i < |ts[1..]| ==> StandsFor(raws, ts[1..][i], us[1..][i], depth);
        assert us == [us[0]] + us[1..];
      }
      if UnfoldAll(raws, ts, depth) == Some(us) {
        assert UnfoldTy(raws, ts[0], depth) == Some(us[0]);
        assert UnfoldAll(raws, ts[1..], depth) == Some(us[1..]);
        assert forall i :: 0 < i < |ts| ==> ts[i] == ts[1..][i - 1] && us[i] == us[1..][i - 1];
      }
    }
  }

  lemma {:induction false} FieldsUnfoldedIff(raws: Raws, fs: seq<TyField>, us: seq<TyField>, depth: nat)
    ensures
      UnfoldFields(raws, fs, depth) == Some(us)
      <==> && |us| == |fs|
           && forall i :: 0 <= i < |fs| ==> us[i].name == fs[i].name && StandsFor(raws, fs[i].ty, us[i].ty, depth)
    decreases depth, 1, fs
  {
    hide UnfoldTy, StandsFor;
    if fs != [] && us != [] {
      UnfoldedIff(raws, fs[0].ty, us[0].ty, depth);
      FieldsUnfoldedIff(raws, fs[1..], us[1..], depth);
      if |us| == |fs| && forall i :: 0 <= i < |fs| ==> us[i].name == fs[i].name && StandsFor(raws, fs[i].ty, us[i].ty, depth) {
        assert forall i :: 0 <= i < |fs[1..]| ==> fs[1..][i] == fs[i + 1] && us[1..][i] == us[i + 1];
        assert us == [us[0]] + us[1..];
      }
      if UnfoldFields(raws, fs, depth) == Some(us) {
        assert UnfoldTy(raws, fs[0].ty, depth) == Some(us[0].ty);
        assert UnfoldFields(raws, fs[1..], depth) == Some(us[1..]);
        assert forall i :: 0 < i < |fs| ==> fs[i] == fs[1..][i - 1] && us[i] == us[1..][i - 1];
      }
    }
  }

  lemma {:induction false} RawUnfoldedIff(raws: Raws, fs: seq<RawField>, us: seq<TyField>, depth: nat)
    ensures UnfoldRaw(raws, fs, depth) == Some(us) <==> AreFields(raws, fs, us, depth)
    decreases depth, 2, fs
  {
    hide UnfoldTy, StandsFor;
    if fs != [] && us != [] {
      if fs[0].ty.Some? { UnfoldedIff(raws, fs[0].ty.value, us[0].ty, depth); }
      RawUnfoldedIff(raws, fs[1..], us[1..], depth);
      if AreFields(raws, fs, us, depth) {
        assert AreFields(raws, fs[1..], us[1..], depth);
        assert us == [us[0]] + us[1..];
      }
      if UnfoldRaw(raws, fs, depth) == Some(us) {
        assert UnfoldTy(raws, fs[0].ty.value, depth) == Some(us[0].ty);
        assert UnfoldRaw(raws, fs[1..], depth) == Some(us[1..]);
        assert forall i :: 0 < i < |fs| ==> fs[i] == fs[1..][i - 1] && us[i] == us[1..][i - 1];
      }
    }
  }

  // ---- Representation ----

  /** The type and everything it is made of; the alternatives of a union do not matter. */
  function PartsOf(t: Ty): set<Ty>
    decreases t
  {
    match t
    case Faultable(item) => {t} + PartsOf(item)
    case Seq(item) => {t} + PartsOf(item)
    case Stream(item) => {t} + PartsOf(item)
    case Tuple(items) => {t} + set i, p | 0 <= i < |items| && p in PartsOf(items[i]) :: p
    case Struct(_, fields) => {t} + set i, p | 0 <= i < |fields| && p in PartsOf(fields[i].ty) :: p
    case _ => {t}
  }

  predicate IsCompound(t: Ty) { t.Faultable? || t.Seq? || t.Stream? || t.Tuple? || t.Struct? }

  /** A part that is allowed: no open name, no union, no scalar that is unknown, no stream unless they are imported. */
  predicate MayStand(known: set<Ty>, p: Ty)
  {
    && !p.Var? && !p.OneOf?
    && (!IsCompound(p) ==> p in known)
    && (p.Stream? ==> exists s :: s in known && s.Stream? && s.item.Var?)
  }

  /** A type has a representation exactly when each of its parts is allowed. */
  lemma {:induction false} AcceptedIff(known: set<Ty>, t: Ty)
    ensures Accepts(known, t) <==> forall p :: p in PartsOf(t) ==> MayStand(known, p)
    decreases t
  {
    assert t in PartsOf(t);
    match t
    case Faultable(item) => AcceptedIff(known, item);
    case Seq(item) => AcceptedIff(known, item);
    case Stream(item) =>
      AcceptedIff(known, item);
      assert (exists s :: s in known && IsConstructor(s)) <==> exists s :: s in known && s.Stream? && s.item.Var?;
      assert Accepts(known, t) <==> MayStand(known, t) && Accepts(known, item);
    case Tuple(items) =>
      forall i | 0 <= i < |items|
        ensures PartsOf(items[i]) <= PartsOf(t)
        ensures Accepts(known, items[i]) <==> forall p :: p in PartsOf(items[i]) ==> MayStand(known, p)
      {
        AcceptedIff(known, items[i]);
      }
    case Struct(_, fields) =>
      forall i | 0 <= i < |fields|
        ensures PartsOf(fields[i].ty) <= PartsOf(t)
        ensures Accepts(known, fields[i].ty) <==> forall p :: p in PartsOf(fields[i].ty) ==> MayStand(known, p)
      {
        AcceptedIff(known, fields[i].ty);
      }
    case _ =>
      assert !IsCompound(t) && PartsOf(t) == {t};
      assert Accepts(known, t) <==> MayStand(known, t);
  }

  // ---- Empty sequences ----

  /** The type and everything in it, the alternatives of unions included. */
  function Within(t: Ty): set<Ty>
    decreases t
  {
    match t
    case Faultable(item) => {t} + Within(item)
    case Seq(item) => {t} + Within(item)
    case Stream(item) => {t} + Within(item)
    case Tuple(items) => {t} + set i, p | 0 <= i < |items| && p in Within(items[i]) :: p
    case OneOf(items) => {t} + set i, p | 0 <= i < |items| && p in Within(items[i]) :: p
    case Struct(_, fields) => {t} + set i, p | 0 <= i < |fields| && p in Within(fields[i].ty) :: p
    case _ => {t}
  }

  /** A type needs a context exactly when the type of the empty sequence is in it somewhere. */
  lemma {:induction false} EmptySeqIsWithin(t: Ty)
    ensures HasEmptySeq(t) <==> EmptySeq in Within(t)
    decreases t
  {
    match t
    case Faultable(item) => EmptySeqIsWithin(item);
    case Seq(item) => EmptySeqIsWithin(item);
    case Stream(item) => EmptySeqIsWithin(item);
    case Tuple(items) => forall i | 0 <= i < |items| ensures HasEmptySeq(items[i]) <==> EmptySeq in Within(items[i]) {
      EmptySeqIsWithin(items[i]);
    }
    case OneOf(items) => forall i | 0 <= i < |items| ensures HasEmptySeq(items[i]) <==> EmptySeq in Within(items[i]) {
      EmptySeqIsWithin(items[i]);
    }
    case Struct(_, fields) =>
      forall i | 0 <= i < |fields| ensures HasEmptySeq(fields[i].ty) <==> EmptySeq in Within(fields[i].ty) {
        EmptySeqIsWithin(fields[i].ty);
      }
    case _ =>
  }
}
