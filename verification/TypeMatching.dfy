/** First-order matching and assignability of types, src/types.rs:145-336. */
module TypeMatching {
  import opened Ast
  import opened Types

  type Vars = map<string, Ty>

  // ---- What the functions compute ----

  function MatchTy(expected: Ty, actual: Ty, vars: Vars): Option<Vars>
    decreases expected, actual
  {
    if expected == actual then Some(vars)
    else if expected.Seq? && actual.EmptySeq? then Some(vars)
    else if expected.Var? then
      if expected.name in vars then
        var bound := vars[expected.name];
        if bound == actual || (actual.EmptySeq? && bound.Seq?) then Some(vars) else None
      else if actual.EmptySeq? then Some(vars)
      else Some(vars[expected.name := actual])
    else if expected.Faultable? && actual.Faultable? then MatchTy(expected.item, actual.item, vars)
    else if expected.Seq? && actual.Seq? then MatchTy(expected.item, actual.item, vars)
    else if expected.Stream? && actual.Stream? then MatchTy(expected.item, actual.item, vars)
    else if expected.OneOf? then MatchAny(expected.items, actual, vars)
    else if actual.OneOf? then MatchEvery(expected, actual.items, vars)
    else if expected.Tuple? && actual.Tuple? && |expected.items| == |actual.items| then
      MatchAll(expected.items, actual.items, vars)
    else if expected.Struct? && actual.Struct? && expected.name == actual.name
            && |expected.fields| == |actual.fields| then
      MatchFields(expected.fields, actual.fields, vars)
    else None
  }

  /** The first alternative that matches. */
  function MatchAny(expected: seq<Ty>, actual: Ty, vars: Vars): Option<Vars>
    decreases expected, actual
  {
    if expected == [] then None
    else if MatchTy(expected[0], actual, vars).Some? then MatchTy(expected[0], actual, vars)
    else MatchAny(expected[1..], actual, vars)
  }

  function MatchEvery(expected: Ty, actual: seq<Ty>, vars: Vars): Option<Vars>
    decreases expected, actual
  {
    if actual == [] then Some(vars) else
      var next :- MatchTy(expected, actual[0], vars);
      MatchEvery(expected, actual[1..], next)
  }

  function MatchAll(expected: seq<Ty>, actual: seq<Ty>, vars: Vars): Option<Vars>
    requires |expected| == |actual|
    decreases expected, actual
  {
    if expected == [] then Some(vars) else
      var next :- MatchTy(expected[0], actual[0], vars);
      MatchAll(expected[1..], actual[1..], next)
  }

  function MatchFields(expected: seq<TyField>, actual: seq<TyField>, vars: Vars): Option<Vars>
    requires |expected| == |actual|
    decreases expected, actual
  {
    if expected == [] then Some(vars)
    else if expected[0].name != actual[0].name then None
    else
      var next :- MatchTy(expected[0].ty, actual[0].ty, vars);
      MatchFields(expected[1..], actual[1..], next)
  }

  /** A variable without a value makes the whole type undefined. */
  function Substitute(t: Ty, vars: Vars): Option<Ty>
    decreases t
  {
    match t
    case Var(name) => if name in vars then Some(vars[name]) else None
    case Faultable(item) =>
      var s :- Substitute(item, vars);
      Some(Faultable(s))
    case Seq(item) =>
      var s :- Substitute(item, vars);
      Some(Ty.Seq(s))
    case Stream(item) =>
      var s :- Substitute(item, vars);
      Some(Stream(s))
    case OneOf(items) =>
      var ts :- SubstituteAll(items, vars);
      Some(OneOf(ts))
    case Tuple(items) =>
      var ts :- SubstituteAll(items, vars);
      Some(Ty.Tuple(ts))
    case Struct(name, fields) =>
      var fs :- SubstituteFields(fields, vars);
      Some(Ty.Struct(name, fs))
    case _ => Some(t)
  }

  function SubstituteAll(ts: seq<Ty>, vars: Vars): (r: Option<seq<Ty>>)
    ensures r.Some? ==> |r.value| == |ts|
    decreases ts
  {
    if ts == [] then Some([]) else
      var first :- Substitute(ts[0], vars);
      var rest :- SubstituteAll(ts[1..], vars);
      Some([first] + rest)
  }

  function SubstituteFields(fs: seq<TyField>, vars: Vars): (r: Option<seq<TyField>>)
    ensures r.Some? ==> |r.value| == |fs|
    decreases fs
  {
    if fs == [] then Some([]) else
      var first :- Substitute(fs[0].ty, vars);
      var rest :- SubstituteFields(fs[1..], vars);
      Some([TyField(fs[0].name, first)] + rest)
  }

  // ---- The loops ----

  method MatchTypes(expected: Ty, actual: Ty, vars: Vars) returns (r: Option<Vars>)
    ensures r == MatchTy(expected, actual, vars)
    decreases expected, actual
  {
    if expected == actual || (expected.Seq? && actual.EmptySeq?) {
      return Some(vars);
    }
    if expected.Var? {
      if expected.name in vars {
        var bound := vars[expected.name];
        return if bound == actual || (actual.EmptySeq? && bound.Seq?) then Some(vars) else None;
      }
      return Some(if actual.EmptySeq? then vars else vars[expected.name := actual]);
    }
    if (expected.Faultable? && actual.Faultable?) || (expected.Seq? && actual.Seq?)
       || (expected.Stream? && actual.Stream?) {
      r := MatchTypes(expected.item, actual.item, vars);
      return;
    }
    if expected.OneOf? {
      var items := expected.items;
      for i := 0 to |items|
        invariant MatchAny(items[i..], actual, vars) == MatchAny(items, actual, vars)
      {
        assert items[i..][1..] == items[i + 1..];
        var candidate := MatchTypes(items[i], actual, vars);
        if candidate.Some? {
          return candidate;
        }
      }
      return None;
    }
    if actual.OneOf? {
      var items := actual.items;
      var current := vars;
      for i := 0 to |items|
        invariant MatchEvery(expected, items[i..], current) == MatchEvery(expected, items, vars)
      {
        assert items[i..][1..] == items[i + 1..];
        var next := MatchTypes(expected, items[i], current);
        if next.None? {
          return None;
        }
        current := next.value;
      }
      return Some(current);
    }
    if expected.Tuple? && actual.Tuple? && |expected.items| == |actual.items| {
      r := MatchItems(expected.items, actual.items, vars);
      return;
    }
    if expected.Struct? && actual.Struct? && expected.name == actual.name && |expected.fields| == |actual.fields| {
      r := MatchStructFields(expected.fields, actual.fields, vars);
      return;
    }
    return None;
  }

  method MatchItems(expected: seq<Ty>, actual: seq<Ty>, vars: Vars) returns (r: Option<Vars>)
    requires |expected| == |actual|
    ensures r == MatchAll(expected, actual, vars)
    decreases expected, actual
  {
    var current := vars;
    for i := 0 to |expected|
      invariant MatchAll(expected[i..], actual[i..], current) == MatchAll(expected, actual, vars)
    {
      assert expected[i..][1..] == expected[i + 1..] && actual[i..][1..] == actual[i + 1..];
      var next := MatchTypes(expected[i], actual[i], current);
      if next.None? {
        return None;
      }
      current := next.value;
    }
    return Some(current);
  }

  method MatchStructFields(expected: seq<TyField>, actual: seq<TyField>, vars: Vars) returns (r: Option<Vars>)
    requires |expected| == |actual|
    ensures r == MatchFields(expected, actual, vars)
    decreases expected, actual
  {
    var current := vars;
    for i := 0 to |expected|
      invariant MatchFields(expected[i..], actual[i..], current) == MatchFields(expected, actual, vars)
    {
      assert expected[i..][1..] == expected[i + 1..] && actual[i..][1..] == actual[i + 1..];
      if expected[i].name != actual[i].name {
        return None;
      }
      var next := MatchTypes(expected[i].ty, actual[i].ty, current);
      if next.None? {
        return None;
      }
      current := next.value;
    }
    return Some(current);
  }

  // ---- Matching against ground types ----

  /** A pattern: variables, but no unions. */
  predicate IsPattern(t: Ty)
  {
    match t
    case OneOf(_) => false
    case Faultable(item) => IsPattern(item)
    case Seq(item) => IsPattern(item)
    case Stream(item) => IsPattern(item)
    case Tuple(items) => forall i :: 0 <= i < |items| ==> IsPattern(items[i])
    case Struct(_, fields) => forall i :: 0 <= i < |fields| ==> IsPattern(fields[i].ty)
    case _ => true
  }

  /** No variables, no unions, no empty sequence without an item type. */
  predicate IsGround(t: Ty)
  {
    match t
    case OneOf(_) => false
    case Var(_) => false
    case EmptySeq => false
    case Faultable(item) => IsGround(item)
    case Seq(item) => IsGround(item)
    case Stream(item) => IsGround(item)
    case Tuple(items) => forall i :: 0 <= i < |items| ==> IsGround(items[i])
    case Struct(_, fields) => forall i :: 0 <= i < |fields| ==> IsGround(fields[i].ty)
    case _ => true
  }

  predicate Extends(more: Vars, vars: Vars) { forall x :: x in vars ==> x in more && more[x] == vars[x] }

  lemma {:induction false} SubstituteGround(t: Ty, vars: Vars)
    requires IsGround(t)
    ensures Substitute(t, vars) == Some(t)
  {
    match t
    case Faultable(item) => SubstituteGround(item, vars);
    case Seq(item) => SubstituteGround(item, vars);
    case Stream(item) => SubstituteGround(item, vars);
    case Tuple(items) => SubstituteGroundAll(items, vars);
    case Struct(_, fields) => SubstituteGroundFields(fields, vars);
    case _ =>
  }

  lemma {:induction false} SubstituteGroundAll(ts: seq<Ty>, vars: Vars)
    requires forall i :: 0 <= i < |ts| ==> IsGround(ts[i])
    ensures SubstituteAll(ts, vars) == Some(ts)
  {
    if ts != [] {
      SubstituteGround(ts[0], vars);
      SubstituteGroundAll(ts[1..], vars);
      assert ts == [ts[0]] + ts[1..];
    }
  }

  lemma {:induction false} SubstituteGroundFields(fs: seq<TyField>, vars: Vars)
    requires forall i :: 0 <= i < |fs| ==> IsGround(fs[i].ty)
    ensures SubstituteFields(fs, vars) == Some(fs)
  {
    if fs != [] {
      SubstituteGround(fs[0].ty, vars);
      SubstituteGroundFields(fs[1..], vars);
      assert fs == [fs[0]] + fs[1..];
    }
  }

  lemma {:induction false} SubstituteMore(t: Ty, vars: Vars, more: Vars)
    requires Extends(more, vars) && Substitute(t, vars).Some?
    ensures Substitute(t, more) == Substitute(t, vars)
  {
    match t
    case Faultable(item) => SubstituteMore(item, vars, more);
    case Seq(item) => SubstituteMore(item, vars, more);
    case Stream(item) => SubstituteMore(item, vars, more);
    case OneOf(items) => SubstituteMoreAll(items, vars, more);
    case Tuple(items) => SubstituteMoreAll(items, vars, more);
    case Struct(_, fields) => SubstituteMoreFields(fields, vars, more);
    case _ =>
  }

  lemma {:induction false} SubstituteMoreAll(ts: seq<Ty>, vars: Vars, more: Vars)
    requires Extends(more, vars) && SubstituteAll(ts, vars).Some?
    ensures SubstituteAll(ts, more) == SubstituteAll(ts, vars)
  {
    if ts != [] {
      SubstituteMore(ts[0], vars, more);
      SubstituteMoreAll(ts[1..], vars, more);
    }
  }

  lemma {:induction false} SubstituteMoreFields(fs: seq<TyField>, vars: Vars, more: Vars)
    requires Extends(more, vars) && SubstituteFields(fs, vars).Some?
    ensures SubstituteFields(fs, more) == SubstituteFields(fs, vars)
  {
    if fs != [] {
      SubstituteMore(fs[0].ty, vars, more);
      SubstituteMoreFields(fs[1..], vars, more);
    }
  }

  /** A match is an extension under which the pattern is the actual type. */
  lemma {:induction false} MatchIsSound(e: Ty, a: Ty, vars: Vars)
    requires IsPattern(e) && IsGround(a) && MatchTy(e, a, vars).Some?
    ensures Extends(MatchTy(e, a, vars).value, vars) && Substitute(e, MatchTy(e, a, vars).value) == Some(a)
    decreases e
  {
    if e == a {
      SubstituteGround(a, vars);
    } else if e.Faultable? || e.Seq? || e.Stream? {
      MatchIsSound(e.item, a.item, vars);
    } else if e.Tuple? {
      MatchAllIsSound(e.items, a.items, vars);
    } else if e.Struct? {
      MatchFieldsIsSound(e.fields, a.fields, vars);
    }
  }

  lemma {:induction false} MatchAllIsSound(es: seq<Ty>, ts: seq<Ty>, vars: Vars)
    requires |es| == |ts| && MatchAll(es, ts, vars).Some?
    requires forall i :: 0 <= i < |es| ==> IsPattern(es[i]) && IsGround(ts[i])
    ensures Extends(MatchAll(es, ts, vars).value, vars) && SubstituteAll(es, MatchAll(es, ts, vars).value) == Some(ts)
    decreases es
  {
    if es != [] {
      MatchIsSound(es[0], ts[0], vars);
      var next := MatchTy(es[0], ts[0], vars).value;
      MatchAllIsSound(es[1..], ts[1..], next);
      SubstituteMore(es[0], next, MatchAll(es, ts, vars).value);
      assert ts == [ts[0]] + ts[1..];
    }
  }

  lemma {:induction false} MatchFieldsIsSound(es: seq<TyField>, ts: seq<TyField>, vars: Vars)
    requires |es| == |ts| && MatchFields(es, ts, vars).Some?
    requires forall i :: 0 <= i < |es| ==> IsPattern(es[i].ty) && IsGround(ts[i].ty)
    ensures Extends(MatchFields(es, ts, vars).value, vars)
    ensures SubstituteFields(es, MatchFields(es, ts, vars).value) == Some(ts)
    decreases es
  {
    if es != [] {
      MatchIsSound(es[0].ty, ts[0].ty, vars);
      var next := MatchTy(es[0].ty, ts[0].ty, vars).value;
      MatchFieldsIsSound(es[1..], ts[1..], next);
      SubstituteMore(es[0].ty, next, MatchFields(es, ts, vars).value);
      assert ts == [ts[0]] + ts[1..];
    }
  }

  /** Whenever some extension makes the pattern the actual type there is a match, and it is contained in it. */
  lemma {:induction false} MatchIsLeast(e: Ty, a: Ty, vars: Vars, other: Vars)
    requires IsPattern(e) && IsGround(a) && Extends(other, vars) && Substitute(e, other) == Some(a)
    ensures MatchTy(e, a, vars).Some? && Extends(other, MatchTy(e, a, vars).value)
    decreases e
  {
    if e != a {
      if e.Faultable? || e.Seq? || e.Stream? {
        MatchIsLeast(e.item, a.item, vars, other);
      } else if e.Tuple? {
        MatchAllIsLeast(e.items, a.items, vars, other);
      } else if e.Struct? {
        MatchFieldsIsLeast(e.fields, a.fields, vars, other);
      }
    }
  }

  lemma {:induction false} MatchAllIsLeast(es: seq<Ty>, ts: seq<Ty>, vars: Vars, other: Vars)
    requires |es| == |ts| && Extends(other, vars) && SubstituteAll(es, other) == Some(ts)
    requires forall i :: 0 <= i < |es| ==> IsPattern(es[i]) && IsGround(ts[i])
    ensures MatchAll(es, ts, vars).Some? && Extends(other, MatchAll(es, ts, vars).value)
    decreases es
  {
    if es != [] {
      MatchIsLeast(es[0], ts[0], vars, other);
      MatchAllIsLeast(es[1..], ts[1..], MatchTy(es[0], ts[0], vars).value, other);
    }
  }

  lemma {:induction false} MatchFieldsIsLeast(es: seq<TyField>, ts: seq<TyField>, vars: Vars, other: Vars)
    requires |es| == |ts| && Extends(other, vars) && SubstituteFields(es, other) == Some(ts)
    requires forall i :: 0 <= i < |es| ==> IsPattern(es[i].ty) && IsGround(ts[i].ty)
    ensures MatchFields(es, ts, vars).Some? && Extends(other, MatchFields(es, ts, vars).value)
    decreases es
  {
    if es != [] {
      MatchIsLeast(es[0].ty, ts[0].ty, vars, other);
      MatchFieldsIsLeast(es[1..], ts[1..], MatchTy(es[0].ty, ts[0].ty, vars).value, other);
    }
  }

  /** Matching succeeds exactly when the variables can be given values. */
  lemma MatchSucceedsIff(e: Ty, a: Ty, vars: Vars)
    requires IsPattern(e) && IsGround(a)
    ensures MatchTy(e, a, vars).Some? <==> exists other :: Extends(other, vars) && Substitute(e, other) == Some(a)
  {
    if MatchTy(e, a, vars).Some? { MatchIsSound(e, a, vars); }
    if other :| Extends(other, vars) && Substitute(e, other) == Some(a) { MatchIsLeast(e, a, vars, other); }
  }

  /** An empty sequence literal is no ground type: it matches where no values for the variables would do. */
  lemma EmptySequenceMatchesAnySequence(x: string)
    ensures MatchTy(Ty.Seq(Var(x)), EmptySeq, map[]) == Some(map[])
    ensures forall vars :: Substitute(Ty.Seq(Var(x)), vars) != Some(EmptySeq)
  {}
}
