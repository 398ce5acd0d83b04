/** Matching types with unions and empty sequences anywhere: src/types.rs:211-301. */
module MatchUnions {
  import opened Ast
  import opened Types
  import opened TypeMatching

  /**
   * The actual type is one of those the pattern stands for under the bindings: of a union in the pattern some
   * alternative, of a union in the actual type every one; an empty sequence stands for any sequence and variable.
   */
  predicate Suits(e: Ty, a: Ty, vars: Vars)
    decreases e, a
  {
    || e == a
    || (e.Seq? && a.EmptySeq?)
    || (e.Var? && (a.EmptySeq? || (e.name in vars && vars[e.name] == a)))
    || (e.Faultable? && a.Faultable? && Suits(e.item, a.item, vars))
    || (e.Seq? && a.Seq? && Suits(e.item, a.item, vars))
    || (e.Stream? && a.Stream? && Suits(e.item, a.item, vars))
    || (e.OneOf? && exists i :: 0 <= i < |e.items| && Suits(e.items[i], a, vars))
    || (!e.OneOf? && !e.Var? && a.OneOf? && forall i :: 0 <= i < |a.items| ==> Suits(e, a.items[i], vars))
    || (e.Tuple? && a.Tuple? && |e.items| == |a.items|
        && forall i :: 0 <= i < |e.items| ==> Suits(e.items[i], a.items[i], vars))
    || (e.Struct? && a.Struct? && e.name == a.name && |e.fields| == |a.fields|
        && forall i :: 0 <= i < |e.fields| ==>
             e.fields[i].name == a.fields[i].name && Suits(e.fields[i].ty, a.fields[i].ty, vars))
  }

  /** More bindings keep what suits. */
  lemma {:induction false} SuitsMore(e: Ty, a: Ty, vars: Vars, more: Vars)
    requires Suits(e, a, vars) && Extends(more, vars)
    ensures Suits(e, a, more)
    decreases e, a
  {
    if e == a || (e.Seq? && a.EmptySeq?) || e.Var? {
    } else if (e.Faultable? && a.Faultable?) || (e.Seq? && a.Seq?) || (e.Stream? && a.Stream?) {
      SuitsMore(e.item, a.item, vars, more);
    } else if e.OneOf? {
      var i :| 0 <= i < |e.items| && Suits(e.items[i], a, vars);
      SuitsMore(e.items[i], a, vars, more);
    } else if a.OneOf? {
      forall i | 0 <= i < |a.items| ensures Suits(e, a.items[i], more) { SuitsMore(e, a.items[i], vars, more); }
    } else if e.Tuple? {
      forall i | 0 <= i < |e.items| ensures Suits(e.items[i], a.items[i], more) {
        SuitsMore(e.items[i], a.items[i], vars, more);
      }
    } else if e.Struct? {
      forall i | 0 <= i < |e.fields| ensures Suits(e.fields[i].ty, a.fields[i].ty, more) {
        SuitsMore(e.fields[i].ty, a.fields[i].ty, vars, more);
      }
    }
  }

  /** A match extends the bindings and makes the actual type suit the pattern, whatever the types. */
  lemma {:induction false} MatchSuits(e: Ty, a: Ty, vars: Vars)
    requires MatchTy(e, a, vars).Some?
    ensures Extends(MatchTy(e, a, vars).value, vars) && Suits(e, a, MatchTy(e, a, vars).value)
    decreases e, a
  {
    if e == a || (e.Seq? && a.EmptySeq?) || e.Var? {
      if e.Var? && e != a { VariableSuits(e.name, a, vars); }
    } else if (e.Faultable? && a.Faultable?) || (e.Seq? && a.Seq?) || (e.Stream? && a.Stream?) {
      MatchSuits(e.item, a.item, vars);
    } else if e.OneOf? {
      AnySuits(e.items, a, vars);
    } else if a.OneOf? {
      EverySuits(e, a.items, vars);
    } else if e.Tuple? {
      ItemsSuit(e.items, a.items, vars);
    } else {
      FieldsSuit(e.fields, a.fields, vars);
    }
  }

  lemma VariableSuits(x: string, a: Ty, vars: Vars)
    requires a != Var(x) && MatchTy(Var(x), a, vars).Some?
    ensures Extends(MatchTy(Var(x), a, vars).value, vars) && Suits(Var(x), a, MatchTy(Var(x), a, vars).value)
  {}

  lemma {:induction false} AnySuits(es: seq<Ty>, a: Ty, vars: Vars)
    requires MatchAny(es, a, vars).Some?
    ensures
      var more := MatchAny(es, a, vars).value;
      Extends(more, vars) && exists i :: 0 <= i < |es| && Suits(es[i], a, more)
    decreases es, a
  {
    if MatchTy(es[0], a, vars).Some? {
      MatchSuits(es[0], a, vars);
    } else {
      AnySuits(es[1..], a, vars);
      var more := MatchAny(es, a, vars).value;
      var i :| 0 <= i < |es[1..]| && Suits(es[1..][i], a, more);
      assert Suits(es[i + 1], a, more);
    }
  }

  lemma {:induction false} EverySuits(e: Ty, ts: seq<Ty>, vars: Vars)
    requires MatchEvery(e, ts, vars).Some?
    ensures
      var more := MatchEvery(e, ts, vars).value;
      Extends(more, vars) && forall i :: 0 <= i < |ts| ==> Suits(e, ts[i], more)
    decreases e, ts
  {
    if ts != [] {
      var next, more := MatchTy(e, ts[0], vars).value, MatchEvery(e, ts, vars).value;
      MatchSuits(e, ts[0], vars);
      EverySuits(e, ts[1..], next);
      SuitsMore(e, ts[0], next, more);
      forall i | 1 <= i < |ts| ensures Suits(e, ts[i], more) { assert ts[i] == ts[1..][i - 1]; }
    }
  }

  lemma {:induction false} ItemsSuit(es: seq<Ty>, ts: seq<Ty>, vars: Vars)
    requires |es| == |ts| && MatchAll(es, ts, vars).Some?
    ensures
      var more := MatchAll(es, ts, vars).value;
      Extends(more, vars) && forall i :: 0 <= i < |es| ==> Suits(es[i], ts[i], more)
    decreases es, ts
  {
    if es != [] {
      var next, more := MatchTy(es[0], ts[0], vars).value, MatchAll(es, ts, vars).value;
      MatchSuits(es[0], ts[0], vars);
      ItemsSuit(es[1..], ts[1..], next);
      SuitsMore(es[0], ts[0], next, more);
      forall i | 1 <= i < |es| ensures Suits(es[i], ts[i], more) { assert es[i] == es[1..][i - 1] && ts[i] == ts[1..][i - 1]; }
    }
  }

  lemma {:induction false} FieldsSuit(es: seq<TyField>, ts: seq<TyField>, vars: Vars)
    requires |es| == |ts| && MatchFields(es, ts, vars).Some?
    ensures
      var more := MatchFields(es, ts, vars).value;
      Extends(more, vars) && forall i :: 0 <= i < |es| ==> es[i].name == ts[i].name && Suits(es[i].ty, ts[i].ty, more)
    decreases es, ts
  {
    if es != [] {
      var next, more := MatchTy(es[0].ty, ts[0].ty, vars).value, MatchFields(es, ts, vars).value;
      MatchSuits(es[0].ty, ts[0].ty, vars);
      FieldsSuit(es[1..], ts[1..], next);
      SuitsMore(es[0].ty, ts[0].ty, next, more);
      forall i | 1 <= i < |es| ensures es[i].name == ts[i].name && Suits(es[i].ty, ts[i].ty, more) {
        assert es[i] == es[1..][i - 1] && ts[i] == ts[1..][i - 1];
      }
    }
  }

  /** A union takes the bindings of its first alternative that matches, and matches exactly when one does. */
  lemma {:induction false} FirstMatchIsTaken(es: seq<Ty>, a: Ty, vars: Vars)
    ensures MatchAny(es, a, vars).Some? <==> exists i :: 0 <= i < |es| && MatchTy(es[i], a, vars).Some?
    ensures forall i :: 0 <= i < |es| && MatchTy(es[i], a, vars).Some? && (forall j :: 0 <= j < i ==> MatchTy(es[j], a, vars).None?)
              ==> MatchAny(es, a, vars) == MatchTy(es[i], a, vars)
    decreases es
  {
    hide MatchTy;
    if es != [] && MatchTy(es[0], a, vars).None? {
      FirstMatchIsTaken(es[1..], a, vars);
      assert forall i :: 1 <= i < |es| ==> es[i] == es[1..][i - 1];
      if MatchAny(es, a, vars).Some? {
        var i :| 0 <= i < |es[1..]| && MatchTy(es[1..][i], a, vars).Some?;
        assert MatchTy(es[i + 1], a, vars).Some?;
      }
      forall i | 0 <= i < |es| && MatchTy(es[i], a, vars).Some?
        && (forall j :: 0 <= j < i ==> MatchTy(es[j], a, vars).None?)
        ensures MatchAny(es, a, vars) == MatchTy(es[i], a, vars)
      {
        assert es[1..][i - 1] == es[i];
        forall j | 0 <= j < i - 1 ensures MatchTy(es[1..][j], a, vars).None? { assert es[1..][j] == es[j + 1]; }
      }
    }
  }

  // ---- Where the converse holds ----

  /** No variable anywhere. */
  predicate BindsNothing(t: Ty)
  {
    match t
    case Var(_) => false
    case Faultable(item) => BindsNothing(item)
    case Seq(item) => BindsNothing(item)
    case Stream(item) => BindsNothing(item)
    case OneOf(items) => forall i :: 0 <= i < |items| ==> BindsNothing(items[i])
    case Tuple(items) => forall i :: 0 <= i < |items| ==> BindsNothing(items[i])
    case Struct(_, fields) => forall i :: 0 <= i < |fields| ==> BindsNothing(fields[i].ty)
    case _ => true
  }

  /** No variable inside a union. */
  predicate UnionsBindNothing(t: Ty)
  {
    match t
    case Faultable(item) => UnionsBindNothing(item)
    case Seq(item) => UnionsBindNothing(item)
    case Stream(item) => UnionsBindNothing(item)
    case OneOf(items) => forall i :: 0 <= i < |items| ==> BindsNothing(items[i])
    case Tuple(items) => forall i :: 0 <= i < |items| ==> UnionsBindNothing(items[i])
    case Struct(_, fields) => forall i :: 0 <= i < |fields| ==> UnionsBindNothing(fields[i].ty)
    case _ => true
  }

  /** No variable and no empty sequence; unions may stand anywhere. */
  predicate IsDefinite(t: Ty)
  {
    match t
    case Var(_) => false
    case EmptySeq => false
    case Faultable(item) => IsDefinite(item)
    case Seq(item) => IsDefinite(item)
    case Stream(item) => IsDefinite(item)
    case OneOf(items) => forall i :: 0 <= i < |items| ==> IsDefinite(items[i])
    case Tuple(items) => forall i :: 0 <= i < |items| ==> IsDefinite(items[i])
    case Struct(_, fields) => forall i :: 0 <= i < |fields| ==> IsDefinite(fields[i].ty)
    case _ => true
  }

  lemma {:induction false} NothingIsBound(e: Ty, a: Ty, vars: Vars)
    requires BindsNothing(e) && MatchTy(e, a, vars).Some?
    ensures MatchTy(e, a, vars).value == vars
    decreases e, a
  {
    if e == a || (e.Seq? && a.EmptySeq?) {
    } else if (e.Faultable? && a.Faultable?) || (e.Seq? && a.Seq?) || (e.Stream? && a.Stream?) {
      NothingIsBound(e.item, a.item, vars);
    } else if e.OneOf? {
      NothingIsBoundByAny(e.items, a, vars);
    } else if a.OneOf? {
      NothingIsBoundByEvery(e, a.items, vars);
    } else if e.Tuple? {
      NothingIsBoundByAll(e.items, a.items, vars);
    } else {
      NothingIsBoundByFields(e.fields, a.fields, vars);
    }
  }

  lemma {:induction false} NothingIsBoundByAny(es: seq<Ty>, a: Ty, vars: Vars)
    requires (forall i :: 0 <= i < |es| ==> BindsNothing(es[i])) && MatchAny(es, a, vars).Some?
    ensures MatchAny(es, a, vars).value == vars
    decreases es, a
  {
    if MatchTy(es[0], a, vars).Some? { NothingIsBound(es[0], a, vars); } else { NothingIsBoundByAny(es[1..], a, vars); }
  }

  lemma {:induction false} NothingIsBoundByEvery(e: Ty, ts: seq<Ty>, vars: Vars)
    requires BindsNothing(e) && MatchEvery(e, ts, vars).Some?
    ensures MatchEvery(e, ts, vars).value == vars
    decreases e, ts
  {
    if ts != [] {
      NothingIsBound(e, ts[0], vars);
      NothingIsBoundByEvery(e, ts[1..], vars);
    }
  }

  lemma {:induction false} NothingIsBoundByAll(es: seq<Ty>, ts: seq<Ty>, vars: Vars)
    requires |es| == |ts| && (forall i :: 0 <= i < |es| ==> BindsNothing(es[i])) && MatchAll(es, ts, vars).Some?
    ensures MatchAll(es, ts, vars).value == vars
    decreases es, ts
  {
    if es != [] {
      NothingIsBound(es[0], ts[0], vars);
      NothingIsBoundByAll(es[1..], ts[1..], vars);
    }
  }

  lemma {:induction false} NothingIsBoundByFields(es: seq<TyField>, ts: seq<TyField>, vars: Vars)
    requires |es| == |ts| && (forall i :: 0 <= i < |es| ==> BindsNothing(es[i].ty)) && MatchFields(es, ts, vars).Some?
    ensures MatchFields(es, ts, vars).value == vars
    decreases es, ts
  {
    if es != [] {
      NothingIsBound(es[0].ty, ts[0].ty, vars);
      NothingIsBoundByFields(es[1..], ts[1..], vars);
    }
  }

  /** If some bindings make the types suit, the match succeeds and binds no more than they do. */
  lemma {:induction false} SuitingMatches(e: Ty, a: Ty, vars: Vars, more: Vars)
    requires UnionsBindNothing(e) && IsDefinite(a) && Extends(more, vars) && Suits(e, a, more)
    ensures MatchTy(e, a, vars).Some? && Extends(more, MatchTy(e, a, vars).value)
    decreases e, a
  {
    hide MatchAny, MatchEvery, MatchAll, MatchFields, BindsNothing;
    if e == a || e.Var? {
    } else if (e.Faultable? && a.Faultable?) || (e.Seq? && a.Seq?) || (e.Stream? && a.Stream?) {
      SuitingMatches(e.item, a.item, vars, more);
    } else if e.OneOf? {
      SuitingMatchesAny(e.items, a, vars, more);
      NothingIsBoundByAny(e.items, a, vars);
    } else if a.OneOf? {
      SuitingMatchesEvery(e, a.items, vars, more);
    } else if e.Tuple? {
      SuitingMatchesAll(e.items, a.items, vars, more);
    } else {
      SuitingMatchesFields(e.fields, a.fields, vars, more);
    }
  }

  lemma {:induction false} NothingMeansNoUnionBinds(t: Ty)
    requires BindsNothing(t)
    ensures UnionsBindNothing(t)
  {
    match t
    case Faultable(item) => NothingMeansNoUnionBinds(item);
    case Seq(item) => NothingMeansNoUnionBinds(item);
    case Stream(item) => NothingMeansNoUnionBinds(item);
    case Tuple(items) => forall i | 0 <= i < |items| ensures UnionsBindNothing(items[i]) { NothingMeansNoUnionBinds(items[i]); }
    case Struct(_, fields) =>
      forall i | 0 <= i < |fields| ensures UnionsBindNothing(fields[i].ty) { NothingMeansNoUnionBinds(fields[i].ty); }
    case _ =>
  }

  lemma {:induction false} SuitingMatchesAny(es: seq<Ty>, a: Ty, vars: Vars, more: Vars)
    requires (forall i :: 0 <= i < |es| ==> BindsNothing(es[i])) && IsDefinite(a) && Extends(more, vars)
    requires exists i :: 0 <= i < |es| && Suits(es[i], a, more)
    ensures MatchAny(es, a, vars).Some?
    decreases es, a
  {
    hide MatchTy, Suits, IsDefinite, UnionsBindNothing, BindsNothing, Extends;
    var i :| 0 <= i < |es| && Suits(es[i], a, more);
    if i == 0 {
      NothingMeansNoUnionBinds(es[0]);
      SuitingMatches(es[0], a, vars, more);
    } else if MatchTy(es[0], a, vars).None? {
      assert es[1..][i - 1] == es[i];
      SuitingMatchesAny(es[1..], a, vars, more);
    }
  }

  lemma {:induction false} SuitingMatchesEvery(e: Ty, ts: seq<Ty>, vars: Vars, more: Vars)
    requires UnionsBindNothing(e) && Extends(more, vars)
    requires forall i :: 0 <= i < |ts| ==> IsDefinite(ts[i]) && Suits(e, ts[i], more)
    ensures MatchEvery(e, ts, vars).Some? && Extends(more, MatchEvery(e, ts, vars).value)
    decreases e, ts
  {
    hide MatchTy, Suits, IsDefinite, UnionsBindNothing, Extends;
    if ts != [] {
      SuitingMatches(e, ts[0], vars, more);
      SuitingMatchesEvery(e, ts[1..], MatchTy(e, ts[0], vars).value, more);
    }
  }

  lemma {:induction false} SuitingMatchesAll(es: seq<Ty>, ts: seq<Ty>, vars: Vars, more: Vars)
    requires |es| == |ts| && Extends(more, vars)
    requires forall i :: 0 <= i < |es| ==> UnionsBindNothing(es[i]) && IsDefinite(ts[i]) && Suits(es[i], ts[i], more)
    ensures MatchAll(es, ts, vars).Some? && Extends(more, MatchAll(es, ts, vars).value)
    decreases es, ts
  {
    hide MatchTy, Suits, IsDefinite, UnionsBindNothing, Extends;
    if es != [] {
      SuitingMatches(es[0], ts[0], vars, more);
      SuitingMatchesAll(es[1..], ts[1..], MatchTy(es[0], ts[0], vars).value, more);
    }
  }

  lemma {:induction false} SuitingMatchesFields(es: seq<TyField>, ts: seq<TyField>, vars: Vars, more: Vars)
    requires |es| == |ts| && Extends(more, vars)
    requires
      forall i :: 0 <= i < |es| ==>
        UnionsBindNothing(es[i].ty) && IsDefinite(ts[i].ty) && es[i].name == ts[i].name && Suits(es[i].ty, ts[i].ty, more)
    ensures MatchFields(es, ts, vars).Some? && Extends(more, MatchFields(es, ts, vars).value)
    decreases es, ts
  {
    hide MatchTy, Suits, IsDefinite, UnionsBindNothing, Extends;
    if es != [] {
      SuitingMatches(es[0].ty, ts[0].ty, vars, more);
      SuitingMatchesFields(es[1..], ts[1..], MatchTy(es[0].ty, ts[0].ty, vars).value, more);
    }
  }

  /**
   * With no variable inside a union of the pattern, a match succeeds exactly when some further bindings make the
   * types suit.
   */
  lemma MatchSucceedsIffSuits(e: Ty, a: Ty, vars: Vars)
    requires UnionsBindNothing(e) && IsDefinite(a)
    ensures MatchTy(e, a, vars).Some? <==> exists more: Vars :: Extends(more, vars) && Suits(e, a, more)
    ensures forall more: Vars :: Extends(more, vars) && Suits(e, a, more) && MatchTy(e, a, vars).Some? ==>
              Extends(more, MatchTy(e, a, vars).value)
  {
    hide MatchTy, Suits, UnionsBindNothing, IsDefinite, Extends;
    if MatchTy(e, a, vars).Some? { MatchSuits(e, a, vars); }
    forall more: Vars | Extends(more, vars) && Suits(e, a, more)
      ensures MatchTy(e, a, vars).Some? && Extends(more, MatchTy(e, a, vars).value)
    {
      SuitingMatches(e, a, vars, more);
    }
  }

  /**
   * The converse of MatchSuits does not hold: no other alternative is tried when the bindings of the first rule out
   * what comes after. For two different types `(x|t, x)` suits `(t, u)` but does not match.
   */
  lemma FirstAlternativeIsKept(x: string, t: Ty, u: Ty)
    requires t != u && !u.EmptySeq? && !t.EmptySeq? && !t.Var? && !u.Var? && t != OneOf([Var(x), t])
    ensures
      var e := Ty.Tuple([OneOf([Var(x), t]), Var(x)]);
      && Suits(e, Ty.Tuple([t, u]), map[x := u])
      && MatchTy(e, Ty.Tuple([t, u]), map[]) == None
  {
    var es: seq<Ty> := [OneOf([Var(x), t]), Var(x)];
    var ts := [t, u];
    var us: seq<Ty> := [Var(x), t];
    assert Suits(us[1], t, map[x := u]);
    assert Suits(es[0], ts[0], map[x := u]) && Suits(es[1], ts[1], map[x := u]);
    assert es[1..] == [Var(x)] && ts[1..] == [u];
    assert es[0] != ts[0] && Ty.Tuple(es) != Ty.Tuple(ts);
    var bound: Vars := map[x := t];
    assert MatchTy(Var(x), t, map[]) == Some(bound);
    assert MatchAny(us, t, map[]) == Some(bound);
    assert MatchTy(es[0], t, map[]) == Some(bound);
    assert MatchTy(Var(x), u, bound) == None;
    assert MatchAll([Var(x)], [u], bound) == None;
    assert MatchAll(es, ts, map[]) == None;
  }
}
