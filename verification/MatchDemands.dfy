/** Matching types that contain empty sequences: src/types.rs:211-301, by what each variable is asked to be. */
module MatchDemands {
  import opened Ast
  import opened Types
  import opened TypeMatching

  /** No variables and no unions; empty sequences may be anywhere. */
  predicate IsActual(t: Ty)
  {
    match t
    case OneOf(_) => false
    case Var(_) => false
    case Faultable(item) => IsActual(item)
    case Seq(item) => IsActual(item)
    case Stream(item) => IsActual(item)
    case Tuple(items) => forall i :: 0 <= i < |items| ==> IsActual(items[i])
    case Struct(_, fields) => forall i :: 0 <= i < |fields| ==> IsActual(fields[i].ty)
    case _ => true
  }

  /** A variable, and the type that stands in its place. */
  datatype Demand = Demand(x: string, ty: Ty)

  // ---- The demands of a pattern, from left to right ----

  /** Nothing when the shapes differ; an empty sequence has the shape of every sequence. */
  function Demands(e: Ty, a: Ty): Option<seq<Demand>>
    decreases e
  {
    if e.Var? then Some([Demand(e.name, a)])
    else if e == a || (e.Seq? && a.EmptySeq?) then Some([])
    else if (e.Faultable? && a.Faultable?) || (e.Seq? && a.Seq?) || (e.Stream? && a.Stream?) then Demands(e.item, a.item)
    else if e.Tuple? && a.Tuple? && |e.items| == |a.items| then ItemDemands(e.items, a.items)
    else if e.Struct? && a.Struct? && e.name == a.name && |e.fields| == |a.fields| then FieldDemands(e.fields, a.fields)
    else None
  }

  function ItemDemands(es: seq<Ty>, ts: seq<Ty>): Option<seq<Demand>>
    requires |es| == |ts|
    decreases es
  {
    if es == [] then Some([]) else
      var first :- Demands(es[0], ts[0]);
      var rest :- ItemDemands(es[1..], ts[1..]);
      Some(first + rest)
  }

  function FieldDemands(es: seq<TyField>, ts: seq<TyField>): Option<seq<Demand>>
    requires |es| == |ts|
    decreases es
  {
    if es == [] then Some([])
    else if es[0].name != ts[0].name then None
    else
      var first :- Demands(es[0].ty, ts[0].ty);
      var rest :- FieldDemands(es[1..], ts[1..]);
      Some(first + rest)
  }

  // ---- Demands that can all be met ----

  /** The same type, or an empty sequence where a sequence is bound. */
  predicate Fits(bound: Ty, ty: Ty) { bound == ty || (ty.EmptySeq? && bound.Seq?) }

  /**
   * Every demand fits the binding there was, and every later one fits every earlier one of its variable. An empty
   * sequence binds nothing: what comes after it need not be a sequence.
   */
  predicate Met(ds: seq<Demand>, vars: Vars)
  {
    && (forall i :: 0 <= i < |ds| && ds[i].x in vars ==> Fits(vars[ds[i].x], ds[i].ty))
    && (forall i, j :: 0 <= i < j < |ds| && ds[i].x == ds[j].x && !ds[i].ty.EmptySeq? ==> Fits(ds[i].ty, ds[j].ty))
  }

  /** The bindings after the demands: the first type of a variable that is no empty sequence. */
  function Bound(ds: seq<Demand>, vars: Vars): Vars
  {
    if ds == [] then vars
    else if ds[0].x in vars || ds[0].ty.EmptySeq? then Bound(ds[1..], vars)
    else Bound(ds[1..], vars[ds[0].x := ds[0].ty])
  }

  function Taken(ds: seq<Demand>, vars: Vars): Option<Vars> { if Met(ds, vars) then Some(Bound(ds, vars)) else None }

  lemma {:induction false} TakenInTwo(first: seq<Demand>, rest: seq<Demand>, vars: Vars)
    ensures Taken(first + rest, vars) == if Taken(first, vars).None? then None else Taken(rest, Taken(first, vars).value)
    decreases |first|
  {
    if first == [] {
      assert first + rest == rest;
    } else {
      var more := first[1..] + rest;
      assert first + rest == [first[0]] + more;
      assert first == [first[0]] + first[1..];
      TakenCons(first[0], more, vars);
      TakenCons(first[0], first[1..], vars);
      hide Met, Bound;
      if Taken([first[0]], vars).Some? { TakenInTwo(first[1..], rest, Taken([first[0]], vars).value); }
    }
  }

  lemma TakenCons(d: Demand, ds: seq<Demand>, vars: Vars)
    ensures Taken([d] + ds, vars) == if Taken([d], vars).None? then None else Taken(ds, Taken([d], vars).value)
  {
    assert ([d] + ds)[1..] == ds;
    MetCons(d, ds, vars);
    OneDemand(d, vars);
    hide Met, Fits;
  }

  lemma MetTail(d: Demand, ds: seq<Demand>, vars: Vars)
    requires Met([d] + ds, vars)
    ensures d.x in vars ==> Fits(vars[d.x], d.ty)
    ensures Met(ds, if d.x in vars || d.ty.EmptySeq? then vars else vars[d.x := d.ty])
  {
    var all := [d] + ds;
    assert all[0] == d && forall i :: 0 <= i < |ds| ==> ds[i] == all[i + 1];
    hide Fits;
  }

  lemma MetAll(d: Demand, ds: seq<Demand>, vars: Vars)
    requires d.x in vars ==> Fits(vars[d.x], d.ty)
    requires Met(ds, if d.x in vars || d.ty.EmptySeq? then vars else vars[d.x := d.ty])
    ensures Met([d] + ds, vars)
  {
    var all := [d] + ds;
    var next := if d.x in vars || d.ty.EmptySeq? then vars else vars[d.x := d.ty];
    assert all[0] == d && forall i :: 0 < i < |all| ==> all[i] == ds[i - 1];
    forall i | 0 <= i < |all| && all[i].x in vars
      ensures Fits(vars[all[i].x], all[i].ty)
    {
      if i > 0 { assert all[i] == ds[i - 1] && ds[i - 1].x in next; }
    }
    forall i, j | 0 <= i < j < |all| && all[i].x == all[j].x && !all[i].ty.EmptySeq?
      ensures Fits(all[i].ty, all[j].ty)
    {
      assert all[j] == ds[j - 1];
      if i > 0 {
        assert all[i] == ds[i - 1];
      } else {
        assert ds[j - 1].x in next && Fits(next[d.x], ds[j - 1].ty);
        if d.x in vars { assert Fits(vars[d.x], d.ty); }
      }
    }
  }

  lemma MetCons(d: Demand, ds: seq<Demand>, vars: Vars)
    ensures
      var next := if d.x in vars || d.ty.EmptySeq? then vars else vars[d.x := d.ty];
      Met([d] + ds, vars) <==> (d.x in vars ==> Fits(vars[d.x], d.ty)) && Met(ds, next)
  {
    hide Met, Fits;
    var next := if d.x in vars || d.ty.EmptySeq? then vars else vars[d.x := d.ty];
    if Met([d] + ds, vars) { MetTail(d, ds, vars); }
    if (d.x in vars ==> Fits(vars[d.x], d.ty)) && Met(ds, next) { MetAll(d, ds, vars); }
  }

  // ---- Matching is taking the demands ----

  /** Matching binds what the demands bind, and fails exactly when the shapes differ or a demand is not met. */
  lemma {:induction false} MatchTakesDemands(e: Ty, a: Ty, vars: Vars)
    requires IsPattern(e) && IsActual(a)
    ensures MatchTy(e, a, vars) == if Demands(e, a).None? then None else Taken(Demands(e, a).value, vars)
    decreases e
  {
    hide MatchTy, MatchAll, MatchFields, Demands, ItemDemands, FieldDemands, Taken;
    if e.Var? || e == a || (e.Seq? && a.EmptySeq?) {
      LeafStep(e, a, vars);
    } else if (e.Faultable? && a.Faultable?) || (e.Seq? && a.Seq?) || (e.Stream? && a.Stream?) {
      MatchTakesDemands(e.item, a.item, vars);
      InnerStep(e, a, vars);
    } else if e.Tuple? && a.Tuple? && |e.items| == |a.items| {
      ItemsTakeDemands(e.items, a.items, vars);
      TupleStep(e, a, vars);
    } else if e.Struct? && a.Struct? && e.name == a.name && |e.fields| == |a.fields| {
      FieldsTakeDemands(e.fields, a.fields, vars);
      StructStep(e, a, vars);
    } else {
      MismatchStep(e, a, vars);
    }
  }

  lemma LeafStep(e: Ty, a: Ty, vars: Vars)
    requires IsActual(a) && (e.Var? || e == a || (e.Seq? && a.EmptySeq?))
    ensures Demands(e, a).Some? && MatchTy(e, a, vars) == Taken(Demands(e, a).value, vars)
  {
    if e.Var? { OneDemand(Demand(e.name, a), vars); } else { NoDemand(vars); }
    hide Taken;
  }

  lemma MismatchStep(e: Ty, a: Ty, vars: Vars)
    requires !e.Var? && e != a && !(e.Seq? && a.EmptySeq?) && !e.OneOf? && !a.OneOf?
    requires !((e.Faultable? && a.Faultable?) || (e.Seq? && a.Seq?) || (e.Stream? && a.Stream?))
    requires !(e.Tuple? && a.Tuple? && |e.items| == |a.items|)
    requires !(e.Struct? && a.Struct? && e.name == a.name && |e.fields| == |a.fields|)
    ensures MatchTy(e, a, vars) == None && Demands(e, a) == None
  {}

  lemma InnerStep(e: Ty, a: Ty, vars: Vars)
    requires e != a && ((e.Faultable? && a.Faultable?) || (e.Seq? && a.Seq?) || (e.Stream? && a.Stream?))
    ensures MatchTy(e, a, vars) == MatchTy(e.item, a.item, vars) && Demands(e, a) == Demands(e.item, a.item)
  {}

  lemma TupleStep(e: Ty, a: Ty, vars: Vars)
    requires e != a && e.Tuple? && a.Tuple? && |e.items| == |a.items|
    ensures MatchTy(e, a, vars) == MatchAll(e.items, a.items, vars) && Demands(e, a) == ItemDemands(e.items, a.items)
  {
    hide MatchAll, ItemDemands;
  }

  lemma StructStep(e: Ty, a: Ty, vars: Vars)
    requires e != a && e.Struct? && a.Struct? && e.name == a.name && |e.fields| == |a.fields|
    ensures MatchTy(e, a, vars) == MatchFields(e.fields, a.fields, vars)
    ensures Demands(e, a) == FieldDemands(e.fields, a.fields)
  {
    hide MatchFields, FieldDemands;
  }

  lemma OneDemand(d: Demand, vars: Vars)
    ensures Taken([d], vars) ==
      if d.x in vars then if Fits(vars[d.x], d.ty) then Some(vars) else None
      else if d.ty.EmptySeq? then Some(vars)
      else Some(vars[d.x := d.ty])
  {
    assert [d][1..] == [] && [d][0] == d && [d] + [] == [d];
    MetCons(d, [], vars);
    assert forall some: Vars :: Bound([], some) == some && Met([], some);
    assert Bound([d], vars) == if d.x in vars || d.ty.EmptySeq? then vars else vars[d.x := d.ty];
    assert Met([d], vars) <==> (d.x in vars ==> Fits(vars[d.x], d.ty));
  }

  lemma {:induction false} ItemsTakeDemands(es: seq<Ty>, ts: seq<Ty>, vars: Vars)
    requires |es| == |ts| && forall i :: 0 <= i < |es| ==> IsPattern(es[i]) && IsActual(ts[i])
    ensures MatchAll(es, ts, vars) == if ItemDemands(es, ts).None? then None else Taken(ItemDemands(es, ts).value, vars)
    decreases es
  {
    hide Taken, MatchTy, Demands;
    if es == [] {
      NoDemand(vars);
    } else {
      MatchTakesDemands(es[0], ts[0], vars);
      var first := Demands(es[0], ts[0]);
      var next := MatchTy(es[0], ts[0], vars);
      if next.Some? {
        ItemsTakeDemands(es[1..], ts[1..], next.value);
      }
      if first.Some? && ItemDemands(es[1..], ts[1..]).Some? {
        TakenInTwo(first.value, ItemDemands(es[1..], ts[1..]).value, vars);
      }
    }
  }

  lemma NoDemand(vars: Vars)
    ensures Taken([], vars) == Some(vars)
  {}

  lemma {:induction false} FieldsTakeDemands(es: seq<TyField>, ts: seq<TyField>, vars: Vars)
    requires |es| == |ts| && forall i :: 0 <= i < |es| ==> IsPattern(es[i].ty) && IsActual(ts[i].ty)
    ensures MatchFields(es, ts, vars)
            == if FieldDemands(es, ts).None? then None else Taken(FieldDemands(es, ts).value, vars)
    decreases es
  {
    hide Taken, MatchTy, Demands;
    if es == [] {
      NoDemand(vars);
    } else if es[0].name == ts[0].name {
      MatchTakesDemands(es[0].ty, ts[0].ty, vars);
      var first := Demands(es[0].ty, ts[0].ty);
      var next := MatchTy(es[0].ty, ts[0].ty, vars);
      if next.Some? {
        FieldsTakeDemands(es[1..], ts[1..], next.value);
      }
      if first.Some? && FieldDemands(es[1..], ts[1..]).Some? {
        TakenInTwo(first.value, FieldDemands(es[1..], ts[1..]).value, vars);
      }
    }
  }

  /** Matching succeeds exactly when the shapes are the same and all demands can be met. */
  lemma MatchSucceedsWithEmptyIff(e: Ty, a: Ty, vars: Vars)
    requires IsPattern(e) && IsActual(a)
    ensures MatchTy(e, a, vars).Some? <==> Demands(e, a).Some? && Met(Demands(e, a).value, vars)
  {
    MatchTakesDemands(e, a, vars);
  }

  /** So the order of the items matters: an empty sequence before a number is let through, behind it it is not. */
  lemma OrderMatters(x: string, t: Ty)
    requires IsActual(t) && !t.EmptySeq? && !t.Seq?
    ensures MatchTy(Ty.Tuple([Var(x), Var(x)]), Ty.Tuple([EmptySeq, t]), map[]) == Some(map[x := t])
    ensures MatchTy(Ty.Tuple([Var(x), Var(x)]), Ty.Tuple([t, EmptySeq]), map[]) == None
  {
    var vs: seq<Ty> := [Var(x), Var(x)];
    var before, after := [EmptySeq, t], [t, EmptySeq];
    assert vs[1..] == [Var(x)] && before[1..] == [t] && after[1..] == [EmptySeq];
    assert [Var(x)][1..] == [] && [t][1..] == [] && [EmptySeq][1..] == [];
    var bound: Vars := map[x := t];
    assert MatchTy(Var(x), t, map[]) == Some(bound) by { assert Var(x) != t; }
    assert MatchTy(Var(x), EmptySeq, map[]) == Some(map[]);
    assert MatchTy(Var(x), EmptySeq, bound) == None;
    assert MatchAll([Var(x)], [t], map[]) == Some(bound);
    assert MatchAll([Var(x)], [EmptySeq], bound) == None;
    assert MatchAll(vs, before, map[]) == Some(bound);
    assert MatchAll(vs, after, map[]) == None;
    assert Ty.Tuple(vs) != Ty.Tuple(before) && Ty.Tuple(vs) != Ty.Tuple(after) by {
      assert vs[0] != before[0] && vs[1] != after[1];
    }
  }
}
