/** Which types may stand for which, and the common type of match arms: src/types.rs:145-207, src/typecheck.rs:952-960. */
module Assignability {
  import opened Ast
  import opened Types
  import opened TypeMatching

  // ---- What the functions compute ----

  /** A tuple with faultable items, at any depth of tuples, without their faults. */
  function UnwrapFaultableTuple(t: Ty): (r: Option<Ty>)
    ensures r.Some? ==> r.value.Tuple? && t.Tuple? && |r.value.items| == |t.items|
    decreases t
  {
    if t.Tuple? && exists i :: 0 <= i < |t.items| && HasFaultableItem(t.items[i]) then
      Some(Ty.Tuple(UnwrapAll(t.items)))
    else None
  }

  predicate HasFaultableItem(t: Ty)
  {
    t.Faultable? || (t.Tuple? && exists i :: 0 <= i < |t.items| && HasFaultableItem(t.items[i]))
  }

  function Unwrapped(t: Ty): Ty
    decreases t
  {
    if t.Faultable? then t.item
    else if t.Tuple? && HasFaultableItem(t) then Ty.Tuple(UnwrapAll(t.items))
    else t
  }

  function UnwrapAll(ts: seq<Ty>): (r: seq<Ty>)
    ensures |r| == |ts| && forall i :: 0 <= i < |ts| ==> r[i] == Unwrapped(ts[i])
    decreases ts
  {
    if ts == [] then [] else [Unwrapped(ts[0])] + UnwrapAll(ts[1..])
  }

  predicate Assignable(expected: Ty, actual: Ty)
  {
    || MatchTy(expected, actual, map[]).Some?
    || (expected.Faultable? &&
        var inner := if UnwrapFaultableTuple(actual).Some? then UnwrapFaultableTuple(actual).value else actual;
        MatchTy(expected.item, inner, map[]).Some?)
  }

  function CommonType(current: Ty, next: Ty): Option<Ty>
  {
    if Assignable(current, next) then Some(current)
    else if Assignable(next, current) then Some(next)
    else None
  }

  function FoldArms(current: Ty, arms: seq<Ty>): Option<Ty>
    decreases |arms|
  {
    if arms == [] then Some(current) else
      var next :- CommonType(current, arms[0]);
      FoldArms(next, arms[1..])
  }

  // ---- The loops ----

  method UnwrapTupleType(t: Ty) returns (r: Option<Ty>)
    ensures r == UnwrapFaultableTuple(t)
    decreases t
  {
    if !t.Tuple? {
      return None;
    }
    var saw := false;
    var items: seq<Ty> := [];
    for i := 0 to |t.items|
      invariant |items| == i && forall j :: 0 <= j < i ==> items[j] == Unwrapped(t.items[j])
      invariant saw <==> exists j :: 0 <= j < i && HasFaultableItem(t.items[j])
    {
      var item := t.items[i];
      if item.Faultable? {
        saw := true;
        items := items + [item.item];
      } else {
        var nested := UnwrapTupleType(item);
        if nested.Some? {
          saw := true;
          items := items + [nested.value];
        } else {
          items := items + [item];
        }
      }
    }
    assert items == UnwrapAll(t.items);
    return if saw then Some(Ty.Tuple(items)) else None;
  }

  method IsAssignable(expected: Ty, actual: Ty) returns (ok: bool)
    ensures ok == Assignable(expected, actual)
  {
    var matched := MatchTypes(expected, actual, map[]);
    if matched.Some? {
      return true;
    }
    if !expected.Faultable? {
      return false;
    }
    var unwrapped := UnwrapTupleType(actual);
    matched := MatchTypes(expected.item, if unwrapped.Some? then unwrapped.value else actual, map[]);
    return matched.Some?;
  }

  /** The type of a match: the arms are compared from the top. */
  method TypeOfArms(arms: seq<Ty>) returns (r: Option<Ty>)
    ensures r == if arms == [] then None else FoldArms(arms[0], arms[1..])
  {
    var result: Option<Ty> := None;
    for i := 0 to |arms|
      invariant i == 0 ==> result.None?
      invariant i > 0 ==> result.Some? && FoldArms(result.value, arms[i..]) == FoldArms(arms[0], arms[1..])
    {
      assert arms[i..][1..] == arms[i + 1..];
      if result.Some? {
        var first := IsAssignable(result.value, arms[i]);
        if !first {
          var second := IsAssignable(arms[i], result.value);
          if !second {
            return None;
          }
          result := Some(arms[i]);
        }
      } else {
        result := Some(arms[i]);
      }
    }
    return result;
  }

  // ---- Types without variables and unions ----

  predicate IsClosed(t: Ty)
  {
    match t
    case Var(_) => false
    case OneOf(_) => false
    case Faultable(item) => IsClosed(item)
    case Seq(item) => IsClosed(item)
    case Stream(item) => IsClosed(item)
    case Tuple(items) => forall i :: 0 <= i < |items| ==> IsClosed(items[i])
    case Struct(_, fields) => forall i :: 0 <= i < |fields| ==> IsClosed(fields[i].ty)
    case _ => true
  }

  /** Equal but for empty sequence literals, which stand for any sequence. */
  predicate Covers(e: Ty, a: Ty)
    decreases e
  {
    || e == a
    || (e.Seq? && a.EmptySeq?)
    || (e.Seq? && a.Seq? && Covers(e.item, a.item))
    || (e.Faultable? && a.Faultable? && Covers(e.item, a.item))
    || (e.Stream? && a.Stream? && Covers(e.item, a.item))
    || (e.Tuple? && a.Tuple? && |e.items| == |a.items|
        && forall i :: 0 <= i < |e.items| ==> Covers(e.items[i], a.items[i]))
    || (e.Struct? && a.Struct? && e.name == a.name && |e.fields| == |a.fields|
        && forall i :: 0 <= i < |e.fields| ==>
             e.fields[i].name == a.fields[i].name && Covers(e.fields[i].ty, a.fields[i].ty))
  }

  lemma {:induction false} MatchIsCovers(e: Ty, a: Ty, vars: Vars)
    requires IsClosed(e) && IsClosed(a)
    ensures MatchTy(e, a, vars) == if Covers(e, a) then Some(vars) else None
    decreases e
  {
    if e != a {
      if (e.Seq? && a.Seq?) || (e.Faultable? && a.Faultable?) || (e.Stream? && a.Stream?) {
        MatchIsCovers(e.item, a.item, vars);
      } else if e.Tuple? && a.Tuple? && |e.items| == |a.items| {
        MatchAllIsCovers(e.items, a.items, vars);
      } else if e.Struct? && a.Struct? && e.name == a.name && |e.fields| == |a.fields| {
        MatchFieldsIsCovers(e.fields, a.fields, vars);
      }
    }
  }

  lemma {:induction false} MatchAllIsCovers(es: seq<Ty>, ts: seq<Ty>, vars: Vars)
    requires |es| == |ts| && forall i :: 0 <= i < |es| ==> IsClosed(es[i]) && IsClosed(ts[i])
    ensures MatchAll(es, ts, vars)
         == if forall i :: 0 <= i < |es| ==> Covers(es[i], ts[i]) then Some(vars) else None
    decreases es
  {
    hide Covers;
    if es != [] {
      MatchIsCovers(es[0], ts[0], vars);
      MatchAllIsCovers(es[1..], ts[1..], vars);
      if MatchAll(es, ts, vars).Some? {
        forall i | 0 <= i < |es|
          ensures Covers(es[i], ts[i])
        {
          if i > 0 { assert es[1..][i - 1] == es[i] && ts[1..][i - 1] == ts[i]; }
        }
      }
    }
  }

  lemma {:induction false} MatchFieldsIsCovers(es: seq<TyField>, ts: seq<TyField>, vars: Vars)
    requires |es| == |ts| && forall i :: 0 <= i < |es| ==> IsClosed(es[i].ty) && IsClosed(ts[i].ty)
    ensures MatchFields(es, ts, vars)
         == if forall i :: 0 <= i < |es| ==> es[i].name == ts[i].name && Covers(es[i].ty, ts[i].ty) then Some(vars) else None
    decreases es
  {
    hide Covers;
    if es != [] {
      MatchIsCovers(es[0].ty, ts[0].ty, vars);
      MatchFieldsIsCovers(es[1..], ts[1..], vars);
      if MatchFields(es, ts, vars).Some? {
        forall i | 0 <= i < |es|
          ensures es[i].name == ts[i].name && Covers(es[i].ty, ts[i].ty)
        {
          if i > 0 { assert es[1..][i - 1] == es[i] && ts[1..][i - 1] == ts[i]; }
        }
      }
    }
  }

  lemma PlainIsCovered(a: Ty, b: Ty)
    requires Covers(a, b) && a != b
    ensures a.Seq? || a.Faultable? || a.Stream? || a.Tuple? || a.Struct?
  {}

  lemma {:induction false} CoversIsTransitive(a: Ty, b: Ty, c: Ty)
    requires Covers(a, b) && Covers(b, c)
    ensures Covers(a, c)
    decreases a, 1
  {
    hide Covers;
    if a != b && b != c {
      PlainIsCovered(a, b);
      if a.Seq? || a.Faultable? || a.Stream? {
        PayloadsCover(a, b, c);
      } else if a.Tuple? {
        ItemsCover(a, b, c);
      } else if a.Struct? {
        FieldsCover(a, b, c);
      }
    }
  }

  lemma {:induction false} PayloadsCover(a: Ty, b: Ty, c: Ty)
    requires (a.Seq? || a.Faultable? || a.Stream?) && a != b && b != c && Covers(a, b) && Covers(b, c)
    ensures Covers(a, c)
    decreases a, 0
  {
    if !b.EmptySeq? && !c.EmptySeq? {
      CoversIsTransitive(a.item, b.item, c.item);
    }
  }

  lemma {:induction false} ItemsCover(a: Ty, b: Ty, c: Ty)
    requires a.Tuple? && a != b && b != c && Covers(a, b) && Covers(b, c)
    ensures Covers(a, c)
    decreases a, 0
  {
    assert b.Tuple? && c.Tuple? && |a.items| == |b.items| == |c.items|;
    forall i | 0 <= i < |a.items|
      ensures Covers(a.items[i], c.items[i])
    {
      CoversIsTransitive(a.items[i], b.items[i], c.items[i]);
    }
  }

  lemma {:induction false} FieldsCover(a: Ty, b: Ty, c: Ty)
    requires a.Struct? && a != b && b != c && Covers(a, b) && Covers(b, c)
    ensures Covers(a, c)
    decreases a, 0
  {
    assert b.Struct? && c.Struct? && |a.fields| == |b.fields| == |c.fields|;
    forall i | 0 <= i < |a.fields|
      ensures Covers(a.fields[i].ty, c.fields[i].ty)
    {
      CoversIsTransitive(a.fields[i].ty, b.fields[i].ty, c.fields[i].ty);
    }
  }

  /** Unwrapping goes along with covering. */
  lemma {:induction false} UnwrappingCovers(b: Ty, c: Ty)
    requires b.Tuple? && c.Tuple? && Covers(b, c)
    ensures HasFaultableItem(b) <==> HasFaultableItem(c)
    ensures |b.items| == |c.items| && forall i :: 0 <= i < |b.items| ==>
              Covers(Unwrapped(b.items[i]), Unwrapped(c.items[i]))
    decreases b
  {
    forall i | 0 <= i < |b.items|
      ensures HasFaultableItem(b.items[i]) <==> HasFaultableItem(c.items[i])
      ensures Covers(Unwrapped(b.items[i]), Unwrapped(c.items[i]))
    {
      if b.items[i].Tuple? && c.items[i].Tuple? { UnwrappingCovers(b.items[i], c.items[i]); }
    }
  }

  lemma {:induction false} UnwrappedIsClosed(t: Ty)
    requires IsClosed(t)
    ensures IsClosed(Unwrapped(t))
    decreases t
  {
    if t.Tuple? {
      forall i | 0 <= i < |t.items|
        ensures IsClosed(UnwrapAll(t.items)[i])
      {
        UnwrappedIsClosed(t.items[i]);
      }
    }
  }

  // ---- Assignability is a preorder ----

  /** Closed, and not a fault around a fault. */
  predicate IsPlain(t: Ty) { IsClosed(t) && (t.Faultable? ==> !t.item.Faultable?) }

  /** What a faultable type looks at. */
  function Inner(t: Ty): Ty { if t.Tuple? && HasFaultableItem(t) then Ty.Tuple(UnwrapAll(t.items)) else t }

  lemma AssignableIs(e: Ty, a: Ty)
    requires IsClosed(e) && IsClosed(a)
    ensures Assignable(e, a) <==> Covers(e, a) || (e.Faultable? && Covers(e.item, Inner(a)))
  {
    assert e.Faultable? ==> IsClosed(e.item);
    hide Covers, MatchTy, IsClosed, HasFaultableItem, Inner, UnwrapFaultableTuple;
    MatchIsCovers(e, a, map[]);
    InnerIs(a);
    if e.Faultable? { MatchIsCovers(e.item, Inner(a), map[]); }
  }

  lemma InnerIs(a: Ty)
    ensures Inner(a) == if UnwrapFaultableTuple(a).Some? then UnwrapFaultableTuple(a).value else a
    ensures IsClosed(a) ==> IsClosed(Inner(a))
  {
    if a.Tuple? && IsClosed(a) { UnwrappedIsClosed(a); }
  }

  lemma InnerCovers(b: Ty, c: Ty)
    requires Covers(b, c) && !b.Faultable?
    ensures Covers(Inner(b), Inner(c)) && !c.Faultable?
  {
    if b.Tuple? { UnwrappingCovers(b, c); }
  }

  lemma AssignableIsReflexive(t: Ty)
    ensures Assignable(t, t)
  {}

  lemma AssignableIsTransitive(a: Ty, b: Ty, c: Ty)
    requires IsPlain(a) && IsClosed(b) && IsClosed(c) && Assignable(a, b) && Assignable(b, c)
    ensures Assignable(a, c)
  {
    AssignableIs(a, b);
    AssignableIs(b, c);
    AssignableIs(a, c);
    hide Assignable, IsClosed, Inner, HasFaultableItem;
    if Covers(a, b) { FaultsCover(a, b); }
    if a.Faultable? && Covers(a.item, Inner(b)) { FaultsCover(a.item, Inner(b)); }
    hide Covers;
    if Covers(a, b) && Covers(b, c) {
      CoversIsTransitive(a, b, c);
    } else if Covers(a, b) {
      CoversIsTransitive(a.item, b.item, Inner(c));
    } else if b.Faultable? {
      FaultableInner(b);
    } else {
      InnerCovers(b, c);
      CoversIsTransitive(a.item, Inner(b), Inner(c));
    }
  }

  lemma FaultsCover(e: Ty, a: Ty)
    requires Covers(e, a)
    ensures e.Faultable? <==> a.Faultable?
    ensures e.Faultable? ==> Covers(e.item, a.item)
  {}

  lemma FaultableInner(b: Ty)
    requires b.Faultable?
    ensures Inner(b) == b
  {}

  /** Every arm's type may stand for the type of the whole match. */
  lemma {:induction false} EveryArmFits(current: Ty, arms: seq<Ty>)
    requires IsPlain(current) && forall i :: 0 <= i < |arms| ==> IsPlain(arms[i])
    requires FoldArms(current, arms).Some?
    ensures
      var t := FoldArms(current, arms).value;
      IsPlain(t) && Assignable(t, current) && forall i :: 0 <= i < |arms| ==> Assignable(t, arms[i])
    decreases |arms|
  {
    hide Assignable, IsClosed;
    AssignableIsReflexive(current);
    if arms != [] {
      var next := CommonType(current, arms[0]).value;
      AssignableIsReflexive(arms[0]);
      assert Assignable(next, current) && Assignable(next, arms[0]);
      EveryArmFits(next, arms[1..]);
      var t := FoldArms(current, arms).value;
      AssignableIsTransitive(t, next, current);
      AssignableIsTransitive(t, next, arms[0]);
      assert forall i :: 0 < i < |arms| ==> arms[i] == arms[1..][i - 1];
    }
  }

  // ---- Exactly where the order breaks ----

  /** No type covers itself with faults put around it, or is covered by it. */
  lemma {:induction false} FaultsAreCounted(t: Ty)
    ensures !Covers(Faultable(t), t) && !Covers(Faultable(Faultable(t)), t)
    ensures !Covers(t, Faultable(t)) && !Covers(t, Faultable(Faultable(t)))
    decreases t
  {
    NotItsOwnFault(t);
    if t.Faultable? {
      FaultsAreCounted(t.item);
    }
  }

  lemma NotItsOwnFault(t: Ty)
    ensures t != Faultable(t) && t != Faultable(Faultable(t))
  {
    assert t < Faultable(t);
    assert Faultable(t) < Faultable(Faultable(t));
  }

  /** Each item may be a fault. */
  function AllFaultable(ts: seq<Ty>): seq<Ty> { seq(|ts|, i requires 0 <= i < |ts| => Faultable(ts[i])) }

  /** What unwraps to `t`, so that a faultable `t` takes it. */
  function Below(t: Ty): Ty { if t.Tuple? && HasFaultableItem(t) then Ty.Tuple(AllFaultable(t.items)) else t }

  lemma BelowUnwraps(t: Ty)
    requires IsClosed(t)
    ensures IsClosed(Below(t)) && Inner(Below(t)) == t
  {
    if t.Tuple? && HasFaultableItem(t) {
      var ts := AllFaultable(t.items);
      assert t.items != [] && HasFaultableItem(ts[0]);
      assert UnwrapAll(ts) == t.items;
    }
  }

  /** A fault around a fault takes the fault, and the fault takes what is below it; but not the first the last. */
  lemma NestedFaultBreaks(t: Ty)
    requires IsClosed(t)
    ensures Assignable(Faultable(Faultable(t)), Faultable(t)) && Assignable(Faultable(t), Below(t))
    ensures !Assignable(Faultable(Faultable(t)), Below(t))
  {
    BelowUnwraps(t);
    FaultsAreCounted(t);
    AssignableIs(Faultable(Faultable(t)), Faultable(t));
    AssignableIs(Faultable(t), Below(t));
    AssignableIs(Faultable(Faultable(t)), Below(t));
    hide Assignable, IsClosed, Inner;
  }

  /** The fold over the arms runs into it: the type it finds does not take the first arm. */
  lemma NestedFaultsAreNotTransitive(t: Ty)
    requires IsClosed(t)
    ensures FoldArms(Below(t), [Faultable(t), Faultable(Faultable(t))]) == Some(Faultable(Faultable(t)))
    ensures !Assignable(Faultable(Faultable(t)), Below(t))
  {
    var one, two := Faultable(t), Faultable(Faultable(t));
    BelowUnwraps(t);
    NestedFaultBreaks(t);
    FaultsAreCounted(t);
    AssignableIs(Below(t), one);
    AssignableIs(one, two);
    assert Inner(one) == one && Inner(two) == two;
    hide Assignable, IsClosed, Inner;
    assert CommonType(Below(t), one) == Some(one) && CommonType(one, two) == Some(two);
    assert [one, two][1..] == [two] && [two][1..] == [];
    assert FoldArms(one, [two]) == FoldArms(two, []);
  }

  /** Steps from a type compose, whatever closed types they lead over, exactly when it is no fault around a fault. */
  lemma StepsComposeIff(a: Ty)
    requires IsClosed(a)
    ensures
      (forall b, c :: IsClosed(b) && IsClosed(c) && Assignable(a, b) && Assignable(b, c) ==> Assignable(a, c))
      <==> !(a.Faultable? && a.item.Faultable?)
  {
    if a.Faultable? && a.item.Faultable? {
      var t := a.item.item;
      NestedFaultBreaks(t);
      BelowUnwraps(t);
      assert IsClosed(Faultable(t)) && IsClosed(Below(t));
    } else {
      forall b, c | IsClosed(b) && IsClosed(c) && Assignable(a, b) && Assignable(b, c)
        ensures Assignable(a, c)
      {
        AssignableIsTransitive(a, b, c);
      }
    }
  }
}
