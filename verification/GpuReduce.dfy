/** The pairwise reduction of the GPU runtime in src/build.rs, against a fold from left to right. */
module GpuReduce {
  import opened Ast

  // ---- The shader, src/build.rs:4625-4654 ----

  const U32: int := 0x1_0000_0000

  /** What the device computes for the three operation codes. */
  datatype Scalars<!T> = Scalars(add: (T, T) -> T, min: (T, T) -> T, max: (T, T) -> T)

  function Apply<T>(s: Scalars<T>, code: nat, left: T, right: T): T
  {
    if code == 0 then s.add(left, right) else if code == 1 then s.min(left, right) else s.max(left, right)
  }

  function Op<T>(s: Scalars<T>, code: nat): (T, T) -> T { (left, right) => Apply(s, code, left, right) }

  datatype Params<T> = Params(len: nat, code: nat, identity: T, includeIdentity: bool)

  /** Lengths are 32-bit words in the shader. */
  function VirtualLen<T>(p: Params<T>): nat { (p.len + (if p.includeIdentity then 1 else 0)) % U32 }

  function OutLen<T>(p: Params<T>): nat { ((VirtualLen(p) + 1) % U32) / 2 }

  /** A read outside the buffer returns anything. */
  function ValueAt<T>(p: Params<T>, input: seq<T>, index: nat, anything: T): T
  {
    if p.includeIdentity && index == 0 then p.identity
    else
      var source := (index - (if p.includeIdentity then 1 else 0)) % U32;
      if source < |input| then input[source] else anything
  }

  /** One thread of one round. Both operands are read before the second is chosen. */
  method Thread<T>(s: Scalars<T>, p: Params<T>, input: array<T>, output: array<T>, id: nat, anything: T)
    requires input != output && id < U32
    requires OutLen(p) <= output.Length
    modifies output
    ensures id >= OutLen(p) ==> output[..] == old(output[..])
    ensures id < OutLen(p) ==> output[..] == old(output[..])[id := Combined(s, p, input[..], id, anything)]
  {
    var virtualLen := (p.len + (if p.includeIdentity then 1 else 0)) % U32;
    var outLen := ((virtualLen + 1) % U32) / 2;
    if id >= outLen {
      return;
    }
    var leftIndex := (id * 2) % U32;
    var rightIndex := (leftIndex + 1) % U32;
    var left := ValueAt(p, input[..], leftIndex, anything);
    var read := ValueAt(p, input[..], rightIndex, anything);
    var right := if rightIndex < virtualLen then read else p.identity;
    output[id] := Apply(s, p.code, left, right);
  }

  /** What thread `id` writes. */
  function Combined<T>(s: Scalars<T>, p: Params<T>, input: seq<T>, id: nat, anything: T): T
  {
    var l := (id * 2) % U32;
    var r := (l + 1) % U32;
    Apply(s, p.code, ValueAt(p, input, l, anything),
          if r < VirtualLen(p) then ValueAt(p, input, r, anything) else p.identity)
  }

  // ---- Rounds ----

  function CeilHalf(n: nat): nat { (n + 1) / 2 }

  /** Neighbours are combined; a last one without a neighbour meets the identity. */
  function Round<T>(op: (T, T) -> T, identity: T, vs: seq<T>): (r: seq<T>)
    ensures |r| == CeilHalf(|vs|)
    ensures forall i :: 0 <= i < |r| ==> r[i] == op(vs[2 * i], if 2 * i + 1 < |vs| then vs[2 * i + 1] else identity)
  {
    if vs == [] then []
    else if |vs| == 1 then [op(vs[0], identity)]
    else [op(vs[0], vs[1])] + Round(op, identity, vs[2..])
  }

  function Tree<T>(op: (T, T) -> T, identity: T, vs: seq<T>): T
    requires vs != []
    decreases |vs|
  {
    if |vs| == 1 then vs[0] else Tree(op, identity, Round(op, identity, vs))
  }

  /** The values a round works on. */
  function Entering<T>(p: Params<T>, input: seq<T>): seq<T>
  {
    if p.includeIdentity then [p.identity] + input else input
  }

  /** The length computed in the shader is right exactly below this bound. */
  lemma OutLenIsRightIff<T>(p: Params<T>)
    requires p.len < U32
    ensures
      var n := p.len + if p.includeIdentity then 1 else 0;
      OutLen(p) == CeilHalf(n) <==> n < U32 - 1
  {
    var n := p.len + if p.includeIdentity then 1 else 0;
    if n < U32 - 1 {
    } else if n == U32 - 1 {
      assert OutLen(p) == 0;
    } else {
      assert n == U32 && OutLen(p) == 0;
    }
  }

  lemma ThreadComputesRound<T>(s: Scalars<T>, p: Params<T>, input: seq<T>, id: nat, anything: T)
    requires |input| == p.len && |Entering(p, input)| < U32 - 1 && id < CeilHalf(|Entering(p, input)|)
    ensures Combined(s, p, input, id, anything)
         == Round(Op(s, p.code), p.identity, Entering(p, input))[id]
  {
    IndicesFit(p, input, id);
    hide ValueAt, Entering, VirtualLen;
    ValueEnters(p, input, id * 2, anything);
    if id * 2 + 1 < |Entering(p, input)| {
      ValueEnters(p, input, id * 2 + 1, anything);
    }
  }

  lemma IndicesFit<T>(p: Params<T>, input: seq<T>, id: nat)
    requires |input| == p.len && |Entering(p, input)| < U32 - 1 && id < CeilHalf(|Entering(p, input)|)
    ensures (id * 2) % U32 == id * 2 && (id * 2 + 1) % U32 == id * 2 + 1 && VirtualLen(p) == |Entering(p, input)|
  {}

  lemma ValueEnters<T>(p: Params<T>, input: seq<T>, index: nat, anything: T)
    requires |input| == p.len && index < |Entering(p, input)| < U32
    ensures ValueAt(p, input, index, anything) == Entering(p, input)[index]
  {}

  // ---- The runtime, src/build.rs:2808-2912 ----

  function Ids(n: nat): (ids: set<int>)
    ensures forall i :: i in ids <==> 0 <= i < n
  {
    if n == 0 then {} else Ids(n - 1) + {n - 1}
  }

  /** The threads of one round run in any order, and more of them may be started than there are results. */
  method Dispatch<T(0)>(s: Scalars<T>, p: Params<T>, input: array<T>, output: array<T>, threads: nat)
    requires input != output && input.Length == p.len < U32
    requires output.Length == CeilHalf(|Entering(p, input[..])|) <= threads < U32
    modifies output
    ensures |Entering(p, input[..])| < U32 - 1 ==>
              output[..] == Round(Op(s, p.code), p.identity, Entering(p, input[..]))
  {
    hide Round, Combined, Op;
    ghost var vs := Entering(p, input[..]);
    OutLenIsRightIff(p);
    ghost var result := Round(Op(s, p.code), p.identity, vs);
    var pending := Ids(threads);
    while pending != {}
      invariant forall i :: i in pending ==> 0 <= i < threads
      invariant |vs| < U32 - 1 ==> forall i :: 0 <= i < output.Length && i !in pending ==> output[i] == result[i]
      decreases |pending|
    {
      var id :| id in pending;
      var anything: T := *;
      if |vs| < U32 - 1 && id < output.Length {
        ThreadComputesRound(s, p, input[..], id, anything);
      }
      ghost var before := output[..];
      Thread(s, p, input, output, id, anything);
      pending := pending - {id};
      assert forall i :: 0 <= i < output.Length ==> output[i] == output[..][i] && before[i] == before[..][i];
    }
  }

  /** Ends with an error when a length does not fit the shader's words. */
  method DispatchReduceBuffer<T(0)>(
    s: Scalars<T>, code: nat, inputBuffer: array<T>, identity: T, includeInitialIdentity: bool)
    returns (r: Option<T>)
    requires inputBuffer.Length > 0
    ensures r.None? ==> inputBuffer.Length >= U32
    ensures
      var vs := if includeInitialIdentity then [identity] + inputBuffer[..] else inputBuffer[..];
      r.Some? && |vs| < U32 - 1 ==> r.value == Tree(Op(s, code), identity, vs)
  {
    ghost var vs := if includeInitialIdentity then [identity] + inputBuffer[..] else inputBuffer[..];
    var currentLen := inputBuffer.Length;
    var current := inputBuffer;
    var includeIdentity := includeInitialIdentity;
    while currentLen > 1 || includeIdentity
      invariant 0 < currentLen == current.Length
      invariant currentLen <= inputBuffer.Length
      invariant |vs| < U32 - 1 ==>
        Tree(Op(s, code), identity, if includeIdentity then [identity] + current[..] else current[..])
        == Tree(Op(s, code), identity, vs)
      decreases includeIdentity, currentLen
    {
      var virtualLen := currentLen + (if includeIdentity then 1 else 0);
      var outputLen := (virtualLen + 1) / 2;
      if currentLen >= U32 {
        return None;
      }
      var output := new T[outputLen];
      var workgroups := (outputLen + 63) / 64;
      var p := Params(currentLen, code, identity, includeIdentity);
      Dispatch(s, p, current, output, workgroups * 64);
      assert |Entering(p, current[..])| >= 2;
      current := output;
      currentLen := outputLen;
      includeIdentity := false;
    }
    return Some(current[0]);
  }

  /** The value of a reduction; nothing is dispatched for an empty sequence. */
  method DispatchReduce<T(0)>(s: Scalars<T>, code: nat, input: array<T>, identity: T) returns (r: Option<T>)
    ensures r.None? ==> input.Length >= U32
    ensures r.Some? && input.Length < U32 - 2 ==> r.value == Tree(Op(s, code), identity, [identity] + input[..])
  {
    if input.Length == 0 {
      assert [identity] + input[..] == [identity];
      return Some(identity);
    }
    r := DispatchReduceBuffer(s, code, input, identity, true);
  }

  // ---- The fold ----

  /** From left to right. */
  function Fold<T>(op: (T, T) -> T, vs: seq<T>): T
    requires vs != []
  {
    if |vs| == 1 then vs[0] else op(Fold(op, vs[..|vs| - 1]), vs[|vs| - 1])
  }

  ghost predicate Associative<T(!new)>(op: (T, T) -> T) { forall a, b, c :: op(op(a, b), c) == op(a, op(b, c)) }

  lemma Reassociate<T(!new)>(op: (T, T) -> T, a: T, b: T, c: T)
    requires Associative(op)
    ensures op(a, op(b, c)) == op(op(a, b), c)
  {}

  lemma {:induction false} RoundIsSplit<T>(op: (T, T) -> T, identity: T, front: seq<T>, back: seq<T>)
    requires |front| % 2 == 0
    ensures Round(op, identity, front + back) == Round(op, identity, front) + Round(op, identity, back)
  {
    hide Round;
    var whole := Round(op, identity, front + back);
    var parts := Round(op, identity, front) + Round(op, identity, back);
    forall i | 0 <= i < |whole|
      ensures whole[i] == parts[i]
    {
      if i >= |front| / 2 { assert parts[i] == Round(op, identity, back)[i - |front| / 2]; }
    }
  }

  lemma FoldLast<T>(op: (T, T) -> T, front: seq<T>, v: T)
    requires front != []
    ensures Fold(op, front + [v]) == op(Fold(op, front), v)
  {
    assert (front + [v])[..|front|] == front;
  }

  lemma {:induction false} RoundFolds<T(!new)>(op: (T, T) -> T, identity: T, vs: seq<T>)
    requires vs != [] && Associative(op)
    ensures
      var r := Round(op, identity, vs);
      r != [] && Fold(op, r) == if |vs| % 2 == 0 then Fold(op, vs) else op(Fold(op, vs), identity)
    decreases |vs|
  {
    hide *;
    var n := |vs|;
    if n == 1 {
      RoundOfFew(op, identity, vs);
      FoldOne(op, vs);
      FoldOne(op, Round(op, identity, vs));
    } else if n == 2 {
      RoundOfFew(op, identity, vs);
      FoldOne(op, Round(op, identity, vs));
      FoldOne(op, vs[..1]);
      FoldLast(op, vs[..1], vs[1]);
      assert vs == vs[..1] + [vs[1]];
    } else if n % 2 == 0 {
      var front, back := vs[..n - 2], vs[n - 2..];
      var a, b := vs[n - 2], vs[n - 1];
      RoundFolds(op, identity, front);
      RoundIsSplit(op, identity, front, back);
      RoundOfFew(op, identity, back);
      FoldLast(op, Round(op, identity, front), op(a, b));
      Reassociate(op, Fold(op, front), a, b);
      FoldLast(op, front, a);
      FoldLast(op, front + [a], b);
      assert vs == front + back && vs == front + [a] + [b];
    } else {
      var front, back := vs[..n - 1], vs[n - 1..];
      var a := vs[n - 1];
      RoundFolds(op, identity, front);
      RoundIsSplit(op, identity, front, back);
      RoundOfFew(op, identity, back);
      FoldLast(op, Round(op, identity, front), op(a, identity));
      Reassociate(op, Fold(op, front), a, identity);
      FoldLast(op, front, a);
      assert vs == front + back && vs == front + [a];
    }
  }

  lemma FoldOne<T>(op: (T, T) -> T, vs: seq<T>)
    requires |vs| == 1
    ensures Fold(op, vs) == vs[0]
  {}

  lemma RoundOfFew<T>(op: (T, T) -> T, identity: T, vs: seq<T>)
    ensures |vs| == 1 ==> Round(op, identity, vs) == [op(vs[0], identity)]
    ensures |vs| == 2 ==> Round(op, identity, vs) == [op(vs[0], vs[1])]
  {}

  /** The rounds in which a value is left without a neighbour. */
  function OddRounds(n: nat): nat
  {
    if n <= 1 then 0 else n % 2 + OddRounds(CeilHalf(n))
  }

  function Padded<T>(op: (T, T) -> T, identity: T, v: T, times: nat): T
    decreases times
  {
    if times == 0 then v else Padded(op, identity, op(v, identity), times - 1)
  }

  /** The reduction is the fold with the identity once more on the right for every odd round. */
  lemma {:induction false} TreeIsPaddedFold<T(!new)>(op: (T, T) -> T, identity: T, vs: seq<T>)
    requires vs != [] && Associative(op)
    ensures Tree(op, identity, vs) == Padded(op, identity, Fold(op, vs), OddRounds(|vs|))
    decreases |vs|
  {
    hide Associative, Fold, Round;
    if |vs| > 1 {
      RoundFolds(op, identity, vs);
      TreeIsPaddedFold(op, identity, Round(op, identity, vs));
    } else {
      FoldOne(op, vs);
    }
  }

  // ---- Minimum and maximum: any identity ----

  ghost predicate Commutative<T(!new)>(op: (T, T) -> T) { forall a, b :: op(a, b) == op(b, a) }

  ghost predicate Idempotent<T(!new)>(op: (T, T) -> T) { forall a :: op(a, a) == a }

  /** What the fold starts from is in it already. */
  lemma {:induction false} FoldAbsorbsFirst<T(!new)>(op: (T, T) -> T, vs: seq<T>)
    requires vs != [] && Associative(op) && Commutative(op) && Idempotent(op)
    ensures op(Fold(op, vs), vs[0]) == Fold(op, vs)
    decreases |vs|
  {
    if |vs| > 1 {
      var front, v := vs[..|vs| - 1], vs[|vs| - 1];
      FoldAbsorbsFirst(op, front);
      var f := Fold(op, front);
      assert op(op(f, v), vs[0]) == op(f, op(vs[0], v)) == op(op(f, vs[0]), v);
    }
  }

  lemma {:induction false} PaddingIsLost<T>(op: (T, T) -> T, identity: T, v: T, times: nat)
    requires op(v, identity) == v
    ensures Padded(op, identity, v, times) == v
    decreases times
  {
    if times > 0 { PaddingIsLost(op, identity, v, times - 1); }
  }

  /** A minimum or maximum of any length is the fold from any identity. */
  lemma ExtremumIsFold<T(!new)>(op: (T, T) -> T, identity: T, vs: seq<T>)
    requires Associative(op) && Commutative(op) && Idempotent(op)
    ensures Tree(op, identity, [identity] + vs) == Fold(op, [identity] + vs)
  {
    TreeIsPaddedFold(op, identity, [identity] + vs);
    FoldAbsorbsFirst(op, [identity] + vs);
    PaddingIsLost(op, identity, Fold(op, [identity] + vs), OddRounds(|vs| + 1));
  }

  /** So is any associative operation from a neutral element. */
  lemma NeutralReductionIsFold<T(!new)>(op: (T, T) -> T, identity: T, vs: seq<T>)
    requires Associative(op) && forall v :: op(v, identity) == v
    ensures Tree(op, identity, [identity] + vs) == Fold(op, [identity] + vs)
  {
    hide Associative;
    TreeIsPaddedFold(op, identity, [identity] + vs);
    PaddingIsLost(op, identity, Fold(op, [identity] + vs), OddRounds(|vs| + 1));
  }

  // ---- Sums ----

  const REALS: Scalars<real> := Scalars(
    (a, b) => a + b, (a, b) => if a < b then a else b, (a, b) => if a > b then a else b)

  function Wrapped(n: int): int { (n + 0x8000_0000) % U32 - 0x8000_0000 }

  const I32S: Scalars<int> := Scalars(
    (a, b) => Wrapped(a + b), (a, b) => if a < b then a else b, (a, b) => if a > b then a else b)

  predicate IsPowerOfTwo(n: nat)
  {
    n == 1 || (n > 1 && n % 2 == 0 && IsPowerOfTwo(n / 2))
  }

  lemma {:induction false} NoOddRoundIff(n: nat)
    requires n > 0
    ensures OddRounds(n) == 0 <==> IsPowerOfTwo(n)
  {
    if n > 1 { NoOddRoundIff(CeilHalf(n)); }
  }

  lemma {:induction false} PaddedSum(identity: real, v: real, times: nat)
    ensures Padded(Op(REALS, 0), identity, v, times) == v + (times as real) * identity
    decreases times
  {
    if times > 0 { PaddedSum(identity, v + identity, times - 1); }
  }

  lemma AddIsAssociative()
    ensures Associative(Op(REALS, 0))
  {}

  /** Minimum and maximum of reals may start from any identity. */
  lemma RealExtremaQualify(code: nat)
    requires code > 0
    ensures Associative(Op(REALS, code)) && Commutative(Op(REALS, code)) && Idempotent(Op(REALS, code))
  {
    var op := Op(REALS, code);
    if code == 1 {
      assert forall a, b :: op(a, b) == if a < b then a else b;
    } else {
      assert forall a, b :: op(a, b) == if a > b then a else b;
    }
    assert Commutative(op) && Idempotent(op);
    forall a, b, c
      ensures op(op(a, b), c) == op(a, op(b, c))
    {}
  }

  /** Minimum and maximum of integers may start from any identity. */
  lemma IntExtremaQualify(code: nat)
    requires code > 0
    ensures Associative(Op(I32S, code)) && Commutative(Op(I32S, code)) && Idempotent(Op(I32S, code))
  {
    var op := Op(I32S, code);
    if code == 1 {
      assert forall a, b :: op(a, b) == if a < b then a else b;
    } else {
      assert forall a, b :: op(a, b) == if a > b then a else b;
    }
    assert Commutative(op) && Idempotent(op);
    forall a, b, c
      ensures op(op(a, b), c) == op(a, op(b, c))
    {}
  }

  lemma {:induction false} RealFoldsAreExtrema(vs: seq<real>)
    requires vs != []
    ensures Fold(Op(REALS, 1), vs) in vs && forall i :: 0 <= i < |vs| ==> Fold(Op(REALS, 1), vs) <= vs[i]
    ensures Fold(Op(REALS, 2), vs) in vs && forall i :: 0 <= i < |vs| ==> Fold(Op(REALS, 2), vs) >= vs[i]
    decreases |vs|
  {
    if |vs| > 1 {
      var front := vs[..|vs| - 1];
      RealFoldsAreExtrema(front);
      assert vs == front + [vs[|vs| - 1]];
    }
  }

  /** The device finds the least and the greatest of the identity and the values. */
  lemma RealExtremaAreFound(identity: real, vs: seq<real>)
    ensures
      var all := [identity] + vs;
      var least, greatest := Tree(Op(REALS, 1), identity, all), Tree(Op(REALS, 2), identity, all);
      && least in all && greatest in all
      && forall i :: 0 <= i < |all| ==> least <= all[i] <= greatest
  {
    RealExtremaQualify(1);
    RealExtremaQualify(2);
    hide Associative, Commutative, Idempotent, Tree, Fold, Op;
    ExtremumIsFold(Op(REALS, 1), identity, vs);
    ExtremumIsFold(Op(REALS, 2), identity, vs);
    RealFoldsAreExtrema([identity] + vs);
  }

  lemma {:induction false} IntFoldsAreExtrema(vs: seq<int>)
    requires vs != []
    ensures Fold(Op(I32S, 1), vs) in vs && forall i :: 0 <= i < |vs| ==> Fold(Op(I32S, 1), vs) <= vs[i]
    ensures Fold(Op(I32S, 2), vs) in vs && forall i :: 0 <= i < |vs| ==> Fold(Op(I32S, 2), vs) >= vs[i]
    decreases |vs|
  {
    if |vs| > 1 {
      var front := vs[..|vs| - 1];
      IntFoldsAreExtrema(front);
      assert vs == front + [vs[|vs| - 1]];
    }
  }

  /** The device finds the least and the greatest of the identity and the values. */
  lemma IntExtremaAreFound(identity: int, vs: seq<int>)
    ensures
      var all := [identity] + vs;
      var least, greatest := Tree(Op(I32S, 1), identity, all), Tree(Op(I32S, 2), identity, all);
      && least in all && greatest in all
      && forall i :: 0 <= i < |all| ==> least <= all[i] <= greatest
  {
    IntExtremaQualify(1);
    IntExtremaQualify(2);
    hide Associative, Commutative, Idempotent, Tree, Fold, Op;
    ExtremumIsFold(Op(I32S, 1), identity, vs);
    ExtremumIsFold(Op(I32S, 2), identity, vs);
    IntFoldsAreExtrema([identity] + vs);
  }

  /** A sum counts the identity once, and once more for every odd round. */
  lemma SumCountsIdentity(identity: real, vs: seq<real>)
    ensures Tree(Op(REALS, 0), identity, [identity] + vs)
         == Fold(Op(REALS, 0), [identity] + vs) + (OddRounds(|vs| + 1) as real) * identity
  {
    AddIsAssociative();
    hide *;
    TreeIsPaddedFold(Op(REALS, 0), identity, [identity] + vs);
    PaddedSum(identity, Fold(Op(REALS, 0), [identity] + vs), OddRounds(|vs| + 1));
  }

  /** So it is the fold exactly for the identity zero, or when identity and values fill a power of two. */
  lemma SumIsFoldIff(identity: real, vs: seq<real>)
    ensures Tree(Op(REALS, 0), identity, [identity] + vs) == Fold(Op(REALS, 0), [identity] + vs)
            <==> identity == 0.0 || IsPowerOfTwo(|vs| + 1)
  {
    hide *;
    SumCountsIdentity(identity, vs);
    NoOddRoundIff(|vs| + 1);
    var k := OddRounds(|vs| + 1);
    if k > 0 && identity != 0.0 { assert (k as real) * identity != 0.0; }
  }

  lemma {:induction false} PaddedWrappedSum(identity: int, v: int, times: nat)
    requires Wrapped(v) == v
    ensures Padded(Op(I32S, 0), identity, v, times) == Wrapped(v + times * identity)
    decreases times
  {
    if times > 0 {
      PaddedWrappedSum(identity, Wrapped(v + identity), times - 1);
      WrapOnce(v + identity, (times - 1) * identity);
      assert v + identity + (times - 1) * identity == v + times * identity;
    }
  }

  lemma WrapAround(a: int, k: int)
    ensures Wrapped(a + k * U32) == Wrapped(a)
  {}

  /** The number of times the word was left. */
  function Laps(a: int): int { (a + 0x8000_0000) / U32 }

  lemma WrappedIs(a: int)
    ensures Wrapped(a) == a + -Laps(a) * U32
  {}

  lemma WrapOnce(a: int, b: int)
    ensures Wrapped(Wrapped(a) + b) == Wrapped(a + b)
    ensures Wrapped(a + Wrapped(b)) == Wrapped(a + b)
    ensures Wrapped(Wrapped(a)) == Wrapped(a)
  {
    hide Wrapped, Laps;
    WrappedIs(a);
    WrappedIs(b);
    WrapAround(a + b, -Laps(a));
    WrapAround(a + b, -Laps(b));
    WrapAround(a, -Laps(a));
  }

  predicate Vanishes(n: int) { n % U32 == 0 }

  /** What the odd rounds of a sum of `n` values add. */
  function Excess(identity: int, n: nat): int
    requires n > 0
  {
    OddRounds(n) * identity
  }

  /** Sums of 32-bit integers wrap around, and count the identity as sums of reals do. */
  lemma WrappedSumCountsIdentity(identity: int, vs: seq<int>)
    requires Wrapped(identity) == identity
    ensures Tree(Op(I32S, 0), identity, [identity] + vs)
         == Wrapped(Fold(Op(I32S, 0), [identity] + vs) + Excess(identity, |vs| + 1))
  {
    WrappedAddIsAssociative();
    FoldIsWrapped([identity] + vs);
    assert Excess(identity, |vs| + 1) == OddRounds(|vs| + 1) * identity;
    hide *;
    TreeIsPaddedFold(Op(I32S, 0), identity, [identity] + vs);
    PaddedWrappedSum(identity, Fold(Op(I32S, 0), [identity] + vs), OddRounds(|vs| + 1));
  }

  /** So such a sum is the fold exactly when the odd rounds add a multiple of 2^32. */
  lemma WrappedSumIsFoldIff(identity: int, vs: seq<int>)
    requires Wrapped(identity) == identity
    ensures Tree(Op(I32S, 0), identity, [identity] + vs) == Fold(Op(I32S, 0), [identity] + vs)
            <==> Vanishes(Excess(identity, |vs| + 1))
  {
    hide *;
    var fold, tree := Fold(Op(I32S, 0), [identity] + vs), Tree(Op(I32S, 0), identity, [identity] + vs);
    var excess := Excess(identity, |vs| + 1);
    assert tree == Wrapped(fold + excess) by { WrappedSumCountsIdentity(identity, vs); }
    assert Wrapped(fold) == fold by { FoldIsWrapped([identity] + vs); }
    assert tree == fold <==> Vanishes(excess) by { WrapsAwayIff(fold, excess); }
  }

  lemma WrapsAwayIff(v: int, more: int)
    requires Wrapped(v) == v
    ensures Wrapped(v + more) == v <==> Vanishes(more)
  {}

  lemma WrappedAddIsAssociative()
    ensures Associative(Op(I32S, 0))
  {
    forall a, b, c
      ensures Op(I32S, 0)(Op(I32S, 0)(a, b), c) == Op(I32S, 0)(a, Op(I32S, 0)(b, c))
    {
      WrapThree(a, b, c);
    }
  }

  lemma WrapThree(a: int, b: int, c: int)
    ensures Wrapped(Wrapped(a + b) + c) == Wrapped(a + Wrapped(b + c))
  {
    WrapOnce(a + b, c);
    WrapOnce(a, b + c);
    hide Wrapped;
    assert a + b + c == a + (b + c);
  }

  lemma FoldIsWrapped(vs: seq<int>)
    requires vs != [] && Wrapped(vs[0]) == vs[0]
    ensures Wrapped(Fold(Op(I32S, 0), vs)) == Fold(Op(I32S, 0), vs)
  {
    if |vs| > 1 { WrapOnce(Fold(Op(I32S, 0), vs[..|vs| - 1]) + vs[|vs| - 1], 0); }
  }
}
