/** The value of a lowered kernel is the value of the callable it was made from. */
module GpuMeaning {
  import opened Ast
  import opened Types
  import opened Typed
  import opened GraphRun
  import opened GpuLowering

  /** `ErrG`: the shader is refused, for a constant out of range or operands of different types. */
  datatype GValue = IntG(n: int) | RealG(r: real) | BoolG(flag: bool) | TupleG(items: seq<GValue>) | ErrG

  /** What the device computes for the functions of reals, also where the graph would report a fault. */
  datatype Device = Device(world: World, overZero: real -> real)

  // ---- Expressions ----

  function EvalUnary(d: Device, op: UnaryOp, v: GValue): GValue
  {
    match v
    case IntG(n) =>
      if op == Neg && FitsI32(-n) then IntG(-n)
      else if op == Abs && FitsI32(if n < 0 then -n else n) then IntG(if n < 0 then -n else n)
      else ErrG
    case RealG(r) =>
      (match op
       case Neg => RealG(-r)
       case Abs => RealG(if r < 0.0 then -r else r)
       case Sqrt => RealG(d.world.sqrt(r))
       case Exp => RealG(d.world.exp(r))
       case Sin => RealG(d.world.sin(r))
       case Cos => RealG(d.world.cos(r))
       case Not => ErrG)
    case BoolG(b) => if op == Not then BoolG(!b) else ErrG
    case _ => ErrG
  }

  function NameOf(op: BinaryOp): string
  {
    match op
    case Add => "add" case Sub => "sub" case Mul => "mul" case Div => "div"
    case Eq => "eq" case Lt => "lt" case Gt => "gt" case Le => "le" case Ge => "ge"
    case And => "and" case Or => "or" case Xor => "xor"
  }

  function EvalBinary(d: Device, op: BinaryOp, a: GValue, b: GValue): GValue
  {
    match (a, b)
    case (IntG(m), IntG(n)) =>
      (match op
       case Add => if FitsI32(m + n) then IntG(m + n) else ErrG
       case Sub => if FitsI32(m - n) then IntG(m - n) else ErrG
       case Mul => if FitsI32(m * n) then IntG(m * n) else ErrG
       case Div => if n != 0 && FitsI32(Truncated(m, n)) then IntG(Truncated(m, n)) else ErrG
       case Eq => BoolG(m == n)
       case Lt => BoolG(m < n)
       case Gt => BoolG(m > n)
       case Le => BoolG(m <= n)
       case Ge => BoolG(m >= n)
       case _ => ErrG)
    case (RealG(p), RealG(q)) =>
      (match op
       case Add => RealG(p + q)
       case Sub => RealG(p - q)
       case Mul => RealG(p * q)
       case Div => RealG(if q == 0.0 then d.overZero(p) else p / q)
       case Eq => BoolG(p == q)
       case Lt => BoolG(p < q)
       case Gt => BoolG(p > q)
       case Le => BoolG(p <= q)
       case Ge => BoolG(p >= q)
       case _ => ErrG)
    case (BoolG(p), BoolG(q)) =>
      (match op
       case And => BoolG(p && q)
       case Or => BoolG(p || q)
       case Xor => BoolG(p != q)
       case Eq => BoolG(p == q)
       case _ => ErrG)
    case _ => ErrG
  }

  /** An integer literal is of the kernel's scalar type (src/codegen/gpu.rs:519-523). */
  function IntLiteral(kind: Kind, n: int): GValue
  {
    if kind != KI32 then RealG(n as real) else if FitsI32(n) then IntG(n) else ErrG
  }

  function Eval(d: Device, kind: Kind, e: GpuExpr, x: GValue): GValue
  {
    match e
    case XVar(_) => x
    case XReal(r) => RealG(r)
    case XInt(n) => IntLiteral(kind, n)
    case XBool(b) => BoolG(b)
    case XTuple(items) => TupleG(EvalAll(d, kind, items, x))
    case XUnary(op, v) => EvalUnary(d, op, Eval(d, kind, v, x))
    case XBinary(op, l, r) => EvalBinary(d, op, Eval(d, kind, l, x), Eval(d, kind, r, x))
    case XSelect(p, t, f) =>
      var pv, tv, fv := Eval(d, kind, p, x), Eval(d, kind, t, x), Eval(d, kind, f, x);
      if pv.BoolG? && !tv.ErrG? && !fv.ErrG? then if pv.flag then tv else fv else ErrG
  }

  function EvalAll(d: Device, kind: Kind, items: seq<GpuExpr>, x: GValue): (r: seq<GValue>)
    ensures |r| == |items|
    ensures forall i :: 0 <= i < |items| ==> r[i] == Eval(d, kind, items[i], x)
  {
    if items == [] then [] else [Eval(d, kind, items[0], x)] + EvalAll(d, kind, items[1..], x)
  }

  // ---- The same value ----

  /**
   * Nothing is asked of a value that may be a fault: it cannot be the result of a kernel. In an i32 kernel
   * a whole real may be an integer of the device, and the shader may be refused.
   */
  predicate Same(kind: Kind, v: Value, g: GValue)
  {
    match v
    case OkV(_) => true
    case FaultV => true
    case TupleV(vs) =>
      Refusable(kind, g) ||
      (g.TupleG? && |g.items| == |vs| && forall i :: 0 <= i < |vs| ==> Same(kind, vs[i], g.items[i]))
    case I32V(n) => Refusable(kind, g) || g == IntLiteral(kind, n)
    case I64V(n) => Refusable(kind, g) || g == IntLiteral(kind, n)
    case RealV(r) => Refusable(kind, g) || g == RealG(r) || (kind == KI32 && g.IntG? && g.n as real == r)
    case BoolV(b) => Refusable(kind, g) || g == BoolG(b)
  }

  predicate Refusable(kind: Kind, g: GValue) { kind == KI32 && g == ErrG }

  ghost predicate SameEnv(d: Device, kind: Kind, env: Env, exprs: ExprEnv, x: GValue)
  {
    forall n :: n in env && n in exprs ==> Same(kind, env[n], Eval(d, kind, exprs[n], x))
  }

  // ---- Operations ----

  lemma MulAsReal(m: int, n: int)
    ensures (m * n) as real == (m as real) * (n as real)
  {}

  lemma SingleSame(d: Device, kind: Kind, name: string, v: Value, g: GValue)
    requires IsSingleName(name) && Same(kind, v, g) && Single(d.world, name, v).Some?
    ensures UnaryNamed(name).Some?
    ensures Same(kind, Single(d.world, name, v).value, EvalUnary(d, UnaryNamed(name).value, g))
  {}

  lemma PairSame(d: Device, kind: Kind, name: string, a: Value, b: Value, g: GValue, h: GValue)
    requires IsPairName(name) && Same(kind, a, g) && Same(kind, b, h) && Pair(d.world, name, a, b).Some?
    ensures BinaryNamed(name).Some?
    ensures Same(kind, Pair(d.world, name, a, b).value, EvalBinary(d, BinaryNamed(name).value, g, h))
  {
    if IsArithmetic(name) {
      ArithmeticSame(d, kind, name, a, b, g, h);
    } else if IsComparison(name) {
      ComparisonSame(d, kind, name, a, b, g, h);
    }
  }

  lemma ArithmeticSame(d: Device, kind: Kind, name: string, a: Value, b: Value, g: GValue, h: GValue)
    requires IsArithmetic(name) && Same(kind, a, g) && Same(kind, b, h) && Pair(d.world, name, a, b).Some?
    ensures BinaryNamed(name).Some?
    ensures Same(kind, Pair(d.world, name, a, b).value, EvalBinary(d, BinaryNamed(name).value, g, h))
  {
    hide Truncated, OfI32, OfI64, FitsI32;
    if a.RealV? && b.RealV? && g.IntG? && h.IntG? { MulAsReal(g.n, h.n); }
    if a.I32V? || a.I64V? { FaultsFromInts(d, name, a, b); }
  }

  lemma FaultsFromInts(d: Device, name: string, a: Value, b: Value)
    requires IsArithmetic(name) && Pair(d.world, name, a, b).Some? && (a.I32V? || a.I64V?)
    ensures Pair(d.world, name, a, b).value.OkV? || Pair(d.world, name, a, b).value.FaultV?
  {}

  lemma ComparisonSame(d: Device, kind: Kind, name: string, a: Value, b: Value, g: GValue, h: GValue)
    requires IsComparison(name) && Same(kind, a, g) && Same(kind, b, h) && Pair(d.world, name, a, b).Some?
    ensures BinaryNamed(name).Some?
    ensures Same(kind, Pair(d.world, name, a, b).value, EvalBinary(d, BinaryNamed(name).value, g, h))
  {
    hide Truncated;
  }

  lemma LoweredNames(name: string)
    ensures BinaryNamed(name).Some? <==> IsPairName(name)
    ensures UnaryNamed(name).Some? <==> IsSingleName(name)
    ensures !(IsPairName(name) && IsSingleName(name))
  {}

  lemma SelectSame(d: Device, kind: Kind, v: Value, e: GpuExpr, x: GValue)
    requires !Faulty(v) && Same(kind, v, Eval(d, kind, e, x))
    requires LowerBuiltin("select", e).Some? && BuiltinPlain(d.world, "select", v).Some?
    ensures Same(kind, BuiltinPlain(d.world, "select", v).value, Eval(d, kind, LowerBuiltin("select", e).value, x))
  {
    assert Same(kind, v.items[0], Eval(d, kind, e.items[0], x));
    assert Same(kind, v.items[1], Eval(d, kind, e.items[1], x));
    assert Same(kind, v.items[2], Eval(d, kind, e.items[2], x));
    assert !Faulty(v.items[1]) && !Faulty(v.items[2]);
  }

  lemma PlainBuiltinSame(d: Device, kind: Kind, name: string, v: Value, e: GpuExpr, x: GValue)
    requires !Faulty(v) && Same(kind, v, Eval(d, kind, e, x))
    requires LowerBuiltin(name, e).Some? && BuiltinPlain(d.world, name, v).Some?
    ensures Same(kind, BuiltinPlain(d.world, name, v).value, Eval(d, kind, LowerBuiltin(name, e).value, x))
  {
    LoweredNames(name);
    hide IsPairName, IsSingleName, BinaryNamed, UnaryNamed, Pair, Single, EvalBinary, EvalUnary;
    if IsPairName(name) {
      PairSame(d, kind, name, v.items[0], v.items[1], Eval(d, kind, e.items[0], x), Eval(d, kind, e.items[1], x));
    } else if IsSingleName(name) {
      SingleSame(d, kind, name, v, Eval(d, kind, e, x));
    } else if name == "select" {
      SelectSame(d, kind, v, e, x);
    }
  }

  /** A lowered built-in node computes what the node does. */
  lemma BuiltinSame(d: Device, kind: Kind, name: string, v: Value, e: GpuExpr, x: GValue)
    requires Same(kind, v, Eval(d, kind, e, x))
    requires LowerBuiltin(name, e).Some? && Builtin(d.world, name, v).Some?
    ensures Same(kind, Builtin(d.world, name, v).value, Eval(d, kind, LowerBuiltin(name, e).value, x))
  {
    if !Faulty(v) { PlainBuiltinSame(d, kind, name, v, e, x); }
  }

  // ---- The shader ----

  /** The expressions of the WebGPU Shading Language that a kernel is written in. */
  datatype Wgsl =
    | Ident(name: string)
    | Cast(scalar: string, n: int)
    | FloatLit(scalar: string, r: real)
    | BoolLit(flag: bool)
    | Apply(callee: string, args: seq<Wgsl>)
    | Prefix(sign: string, operand: Wgsl)
    | Infix(sign: string, left: Wgsl, right: Wgsl)
    | Comment

  function ScalarName(kind: Kind): string
  {
    match kind case KI32 => "i32" case KF32 => "f32" case KF64 => "f64"
  }

  function UnaryText(op: UnaryOp, w: Wgsl): Wgsl
  {
    match op
    case Neg => Prefix("-", w)
    case Not => Prefix("!", w)
    case Abs => Apply("abs", [w])
    case Sqrt => Apply("sqrt", [w])
    case Exp => Apply("exp", [w])
    case Sin => Apply("sin", [w])
    case Cos => Apply("cos", [w])
  }

  function BinaryText(op: BinaryOp): string
  {
    match op
    case Add => "+" case Sub => "-" case Mul => "*" case Div => "/"
    case Eq => "==" case Lt => "<" case Gt => ">" case Le => "<=" case Ge => ">="
    case And => "&&" case Or => "||" case Xor => "!="
  }

  function ToWgsl(kind: Kind, e: GpuExpr): Wgsl
  {
    match e
    case XVar(name) => Ident(name)
    case XReal(r) => FloatLit(if kind == KF64 then "f64" else "f32", r)
    case XInt(n) => Cast(ScalarName(kind), n)
    case XBool(b) => BoolLit(b)
    case XTuple(_) => Comment
    case XUnary(op, v) => UnaryText(op, ToWgsl(kind, v))
    case XBinary(op, l, r) => Infix(BinaryText(op), ToWgsl(kind, l), ToWgsl(kind, r))
    case XSelect(p, t, f) => Apply("select", [ToWgsl(kind, f), ToWgsl(kind, t), ToWgsl(kind, p)])
  }

  function FunctionNamed(name: string): Option<UnaryOp>
  {
    if name == "abs" then Some(Abs) else if name == "sqrt" then Some(Sqrt) else if name == "exp" then Some(Exp)
    else if name == "sin" then Some(Sin) else if name == "cos" then Some(Cos) else None
  }

  function SignNamed(sign: string): Option<BinaryOp>
  {
    if sign == "+" then Some(Add) else if sign == "-" then Some(Sub) else if sign == "*" then Some(Mul)
    else if sign == "/" then Some(Div) else if sign == "==" then Some(Eq) else if sign == "<" then Some(Lt)
    else if sign == ">" then Some(Gt) else if sign == "<=" then Some(Le) else if sign == ">=" then Some(Ge)
    else if sign == "&&" then Some(And) else if sign == "||" then Some(Or) else None
  }

  /** `!=` compares values of any scalar type. */
  function Differ(a: GValue, b: GValue): GValue
  {
    match (a, b)
    case (IntG(m), IntG(n)) => BoolG(m != n)
    case (RealG(p), RealG(q)) => BoolG(p != q)
    case (BoolG(p), BoolG(q)) => BoolG(p != q)
    case _ => ErrG
  }

  /** `select(f, t, c)` is `t` when `c` holds (section 17.3 of the WebGPU Shading Language). */
  function EvalWgsl(d: Device, w: Wgsl, x: GValue): GValue
  {
    match w
    case Ident(_) => x
    case Cast(scalar, n) => if scalar == "i32" then if FitsI32(n) then IntG(n) else ErrG else RealG(n as real)
    case FloatLit(_, r) => RealG(r)
    case BoolLit(b) => BoolG(b)
    case Apply(f, args) =>
      if f == "select" && |args| == 3 then
        var ifFalse, ifTrue, c := EvalWgsl(d, args[0], x), EvalWgsl(d, args[1], x), EvalWgsl(d, args[2], x);
        if ifFalse.ErrG? || ifTrue.ErrG? || !c.BoolG? then ErrG else if c.flag then ifTrue else ifFalse
      else if FunctionNamed(f).Some? && |args| == 1 then EvalUnary(d, FunctionNamed(f).value, EvalWgsl(d, args[0], x))
      else ErrG
    case Prefix(sign, v) => EvalUnary(d, if sign == "-" then Neg else Not, EvalWgsl(d, v, x))
    case Infix(sign, l, r) =>
      if sign == "!=" then Differ(EvalWgsl(d, l, x), EvalWgsl(d, r, x))
      else if SignNamed(sign).Some? then EvalBinary(d, SignNamed(sign).value, EvalWgsl(d, l, x), EvalWgsl(d, r, x))
      else ErrG
    case Comment => ErrG
  }

  /** No tuple, and exclusive or on booleans only: `!=` would also compare numbers. */
  predicate Writable(d: Device, kind: Kind, e: GpuExpr, x: GValue)
  {
    match e
    case XTuple(_) => false
    case XUnary(_, v) => Writable(d, kind, v, x)
    case XBinary(op, l, r) =>
      && Writable(d, kind, l, x) && Writable(d, kind, r, x)
      && (op == Xor ==> Eval(d, kind, l, x).BoolG? || Eval(d, kind, l, x).ErrG?)
    case XSelect(p, t, f) => Writable(d, kind, p, x) && Writable(d, kind, t, x) && Writable(d, kind, f, x)
    case _ => true
  }

  lemma InfixMeans(d: Device, op: BinaryOp, l: Wgsl, r: Wgsl, x: GValue)
    requires op == Xor ==> EvalWgsl(d, l, x).BoolG? || EvalWgsl(d, l, x).ErrG?
    ensures EvalWgsl(d, Infix(BinaryText(op), l, r), x) == EvalBinary(d, op, EvalWgsl(d, l, x), EvalWgsl(d, r, x))
  {
    if op != Xor { assert SignNamed(BinaryText(op)) == Some(op); }
  }

  lemma UnaryMeans(d: Device, op: UnaryOp, w: Wgsl, x: GValue)
    ensures EvalWgsl(d, UnaryText(op, w), x) == EvalUnary(d, op, EvalWgsl(d, w, x))
  {
    hide EvalUnary;
    assert [w][0] == w;
  }

  /** The shader computes the expression. */
  lemma {:induction false} ShaderMeansExpression(d: Device, kind: Kind, e: GpuExpr, x: GValue)
    requires Writable(d, kind, e, x)
    ensures EvalWgsl(d, ToWgsl(kind, e), x) == Eval(d, kind, e, x)
  {
    hide EvalUnary, EvalBinary, FitsI32, UnaryText, BinaryText;
    match e
    case XUnary(op, v) =>
      ShaderMeansExpression(d, kind, v, x);
      UnaryMeans(d, op, ToWgsl(kind, v), x);
    case XBinary(op, l, r) =>
      ShaderMeansExpression(d, kind, l, x);
      ShaderMeansExpression(d, kind, r, x);
      InfixMeans(d, op, ToWgsl(kind, l), ToWgsl(kind, r), x);
    case XSelect(p, t, f) =>
      ShaderMeansExpression(d, kind, p, x);
      ShaderMeansExpression(d, kind, t, x);
      ShaderMeansExpression(d, kind, f, x);
      var args := [ToWgsl(kind, f), ToWgsl(kind, t), ToWgsl(kind, p)];
      assert args[0] == ToWgsl(kind, f) && args[1] == ToWgsl(kind, t) && args[2] == ToWgsl(kind, p);
    case _ =>
  }

  // ---- What the lowered graph carries along ----

  /** The parts of a tuple expression, and a scalar, can be written as a shader. Faults are of no interest. */
  predicate Written(d: Device, kind: Kind, v: Value, e: GpuExpr, x: GValue)
    decreases v
  {
    match v
    case OkV(_) => true
    case FaultV => true
    case TupleV(vs) =>
      e.XTuple? ==> |e.items| == |vs| && forall i :: 0 <= i < |vs| ==> Written(d, kind, vs[i], e.items[i], x)
    case _ => Writable(d, kind, e, x)
  }

  /** The one value of `g` at the input `x` and `h` at the input zero, apart from the input itself. */
  predicate Twins(v: Value, g: GValue, h: GValue, x: GValue)
    decreases v
  {
    match v
    case OkV(_) => true
    case FaultV => true
    case TupleV(vs) =>
      || (g == ErrG && h == ErrG)
      || (g.TupleG? && h.TupleG? && |g.items| == |h.items| == |vs|
          && forall i :: 0 <= i < |vs| ==> Twins(vs[i], g.items[i], h.items[i], x))
    case I32V(n) => x == IntG(n) && ((g == ErrG && h == ErrG) || (g == x && h == IntG(0)))
    case _ => g == h
  }

  /** The expression has the value, can be written, and in an i32 kernel is refused or not whatever the input is. */
  ghost predicate Carries(d: Device, kind: Kind, v: Value, e: GpuExpr, x: GValue)
  {
    && Same(kind, v, Eval(d, kind, e, x))
    && Written(d, kind, v, e, x)
    && (kind == KI32 ==> Twins(v, Eval(d, kind, e, x), Eval(d, kind, e, IntG(0)), x))
  }

  lemma FaultsCarry(d: Device, kind: Kind, v: Value, e: GpuExpr, x: GValue)
    requires v.OkV? || v.FaultV?
    ensures Carries(d, kind, v, e, x)
  {}

  lemma PairCarries(d: Device, kind: Kind, name: string, v: Value, e: GpuExpr, x: GValue)
    requires !Faulty(v) && Carries(d, kind, v, e, x) && IsPairName(name)
    requires LowerBuiltin(name, e).Some? && BuiltinPlain(d.world, name, v).Some?
    ensures Carries(d, kind, BuiltinPlain(d.world, name, v).value, LowerBuiltin(name, e).value, x)
  {
    LoweredNames(name);
    PlainBuiltinSame(d, kind, name, v, e, x);
    var a, b := v.items[0], v.items[1];
    assert !Faulty(a) && !Faulty(b);
    assert Eval(d, kind, e, x).items[0] == Eval(d, kind, e.items[0], x);
    assert Eval(d, kind, e, x).items[1] == Eval(d, kind, e.items[1], x);
    var op := BinaryNamed(name).value;
    assert LowerBuiltin(name, e).value == XBinary(op, e.items[0], e.items[1]);
    PairWritten(d, kind, name, a, b, e.items[0], e.items[1], x);
    if kind == KI32 {
      PairTwins(d, name, a, b, Eval(d, kind, e.items[0], x), Eval(d, kind, e.items[1], x),
                Eval(d, kind, e.items[0], IntG(0)), Eval(d, kind, e.items[1], IntG(0)), x);
    }
  }

  lemma PairWritten(d: Device, kind: Kind, name: string, a: Value, b: Value, l: GpuExpr, r: GpuExpr, x: GValue)
    requires IsPairName(name) && BinaryNamed(name).Some? && Pair(d.world, name, a, b).Some?
    requires Same(kind, a, Eval(d, kind, l, x)) && Written(d, kind, a, l, x) && Written(d, kind, b, r, x)
    ensures Written(d, kind, Pair(d.world, name, a, b).value, XBinary(BinaryNamed(name).value, l, r), x)
  {
    hide Truncated, OfI32, OfI64, Eval;
  }

  lemma PairTwins(
    d: Device, name: string, a: Value, b: Value, g: GValue, g': GValue, h: GValue, h': GValue, x: GValue)
    requires IsPairName(name) && BinaryNamed(name).Some? && Pair(d.world, name, a, b).Some?
    requires Twins(a, g, h, x) && Twins(b, g', h', x)
    ensures Twins(Pair(d.world, name, a, b).value, EvalBinary(d, BinaryNamed(name).value, g, g'),
                  EvalBinary(d, BinaryNamed(name).value, h, h'), x)
  {
    hide Truncated, FitsI32, FitsI64, OfI32, OfI64;
    if a.I32V? && IsArithmetic(name) { FaultsFromInts(d, name, a, b); }
    if a.I64V? && IsArithmetic(name) { FaultsFromInts(d, name, a, b); }
  }

  lemma SingleCarries(d: Device, kind: Kind, name: string, v: Value, e: GpuExpr, x: GValue)
    requires !Faulty(v) && Carries(d, kind, v, e, x) && IsSingleName(name)
    requires LowerBuiltin(name, e).Some? && BuiltinPlain(d.world, name, v).Some?
    ensures Carries(d, kind, BuiltinPlain(d.world, name, v).value, LowerBuiltin(name, e).value, x)
  {
    hide EvalUnary, EvalBinary, Pair, IsPairName, BinaryNamed;
    LoweredNames(name);
    PlainBuiltinSame(d, kind, name, v, e, x);
  }

  lemma SelectCarries(d: Device, kind: Kind, v: Value, e: GpuExpr, x: GValue)
    requires !Faulty(v) && Carries(d, kind, v, e, x)
    requires LowerBuiltin("select", e).Some? && BuiltinPlain(d.world, "select", v).Some?
    ensures Carries(d, kind, BuiltinPlain(d.world, "select", v).value, LowerBuiltin("select", e).value, x)
  {
    assert Same(kind, v, Eval(d, kind, e, x));
    hide Same, Eval, Written, Twins, Alike, BuiltinPlain, LowerBuiltin, Faulty;
    SelectCarriesWritten(d, kind, v, e, x);
    SelectSame(d, kind, v, e, x);
    if kind == KI32 { SelectCarriesTwins(d, v, e, x); }
  }

  lemma SelectCarriesWritten(d: Device, kind: Kind, v: Value, e: GpuExpr, x: GValue)
    requires !Faulty(v) && Carries(d, kind, v, e, x)
    requires LowerBuiltin("select", e).Some? && BuiltinPlain(d.world, "select", v).Some?
    ensures Written(d, kind, BuiltinPlain(d.world, "select", v).value, LowerBuiltin("select", e).value, x)
  {
    var p, t, f := v.items[0], v.items[1], v.items[2];
    assert !Faulty(p) && !Faulty(t) && !Faulty(f);
    SelectWritten(d, kind, p, t, f, e.items[0], e.items[1], e.items[2], x);
    hide Same, Eval, Written, Twins, Alike;
  }

  lemma SelectCarriesTwins(d: Device, v: Value, e: GpuExpr, x: GValue)
    requires !Faulty(v) && Carries(d, KI32, v, e, x)
    requires LowerBuiltin("select", e).Some? && BuiltinPlain(d.world, "select", v).Some?
    ensures
      var s := LowerBuiltin("select", e).value;
      Twins(BuiltinPlain(d.world, "select", v).value, Eval(d, KI32, s, x), Eval(d, KI32, s, IntG(0)), x)
  {
    var p, t, f := v.items[0], v.items[1], v.items[2];
    var g, h := Eval(d, KI32, e, x), Eval(d, KI32, e, IntG(0));
    assert Same(KI32, p, g.items[0]);
    assert Twins(p, g.items[0], h.items[0], x) && Twins(t, g.items[1], h.items[1], x) && Twins(f, g.items[2], h.items[2], x);
    SelectTwins(p, t, f, g.items[0], g.items[1], g.items[2], h.items[0], h.items[1], h.items[2], x);
    SelectEvaluated(d, KI32, e, x);
    SelectEvaluated(d, KI32, e, IntG(0));
    hide Same, Eval, Written, Twins, Alike, Selected;
  }

  lemma SelectWritten(
    d: Device, kind: Kind, p: Value, t: Value, f: Value, l: GpuExpr, m: GpuExpr, r: GpuExpr, x: GValue)
    requires p.BoolV? && Alike(t, f) && !Faulty(t) && !Faulty(f)
    requires Written(d, kind, p, l, x) && Written(d, kind, t, m, x) && Written(d, kind, f, r, x)
    ensures Written(d, kind, if p.flag then t else f, XSelect(l, m, r), x)
  {}

  function Selected(p: GValue, t: GValue, f: GValue): GValue
  {
    if p.BoolG? && !t.ErrG? && !f.ErrG? then if p.flag then t else f else ErrG
  }

  lemma SelectEvaluated(d: Device, kind: Kind, e: GpuExpr, x: GValue)
    requires e.XTuple? && |e.items| == 3
    ensures
      var g := Eval(d, kind, e, x);
      && g.TupleG? && |g.items| == 3
      && Eval(d, kind, XSelect(e.items[0], e.items[1], e.items[2]), x) == Selected(g.items[0], g.items[1], g.items[2])
  {}

  lemma SelectTwins(
    p: Value, t: Value, f: Value, g: GValue, g': GValue, g'': GValue, h: GValue, h': GValue, h'': GValue, x: GValue)
    requires p.BoolV? && Alike(t, f) && !Faulty(t) && !Faulty(f)
    requires g == ErrG || g == BoolG(p.flag)
    requires Twins(p, g, h, x) && Twins(t, g', h', x) && Twins(f, g'', h'', x)
    ensures Twins(if p.flag then t else f, Selected(g, g', g''), Selected(h, h', h''), x)
  {}

  /** A lowered built-in node carries its result. */
  lemma BuiltinCarries(d: Device, kind: Kind, name: string, v: Value, e: GpuExpr, x: GValue)
    requires Carries(d, kind, v, e, x)
    requires LowerBuiltin(name, e).Some? && Builtin(d.world, name, v).Some?
    ensures Carries(d, kind, Builtin(d.world, name, v).value, LowerBuiltin(name, e).value, x)
  {
    BuiltinSame(d, kind, name, v, e, x);
    if !Faulty(v) {
      LoweredNames(name);
      if IsPairName(name) {
        PairCarries(d, kind, name, v, e, x);
      } else if IsSingleName(name) {
        SingleCarries(d, kind, name, v, e, x);
      } else if name == "select" {
        SelectCarries(d, kind, v, e, x);
      }
    }
  }

  ghost predicate CarriedEnv(d: Device, kind: Kind, env: Env, exprs: ExprEnv, x: GValue)
  {
    forall n :: n in env && n in exprs ==> Carries(d, kind, env[n], exprs[n], x)
  }

  // ---- Bindings ----

  lemma {:induction false} BindCarries(
    d: Device, kind: Kind, t: BindingTarget, v: Value, e: GpuExpr, env: Env, exprs: ExprEnv, x: GValue)
    requires Carries(d, kind, v, e, x) && CarriedEnv(d, kind, env, exprs, x)
    requires BindTarget(t, v, env).Some? && BindExpr(t, e, exprs).Some?
    ensures CarriedEnv(d, kind, BindTarget(t, v, env).value, BindExpr(t, e, exprs).value, x)
    decreases t, 0
  {
    if t.Both? {
      var n := |t.items|;
      match v
      case TupleV(vs) => BindAllCarries(d, kind, t.items, vs, e.items, env, exprs, x);
      case OkV(w) => BindAllCarries(d, kind, t.items, seq(n, i requires 0 <= i < n => Projected(w.items[i])), e.items, env, exprs, x);
      case FaultV => BindAllCarries(d, kind, t.items, seq(n, _ => FaultV), e.items, env, exprs, x);
      case _ =>
    }
  }

  lemma {:induction false} BindAllCarries(
    d: Device, kind: Kind, ts: seq<BindingTarget>, vs: seq<Value>, es: seq<GpuExpr>, env: Env, exprs: ExprEnv, x: GValue)
    requires |ts| == |vs| == |es|
    requires forall i :: 0 <= i < |vs| ==> Carries(d, kind, vs[i], es[i], x)
    requires CarriedEnv(d, kind, env, exprs, x)
    requires BindTargets(ts, vs, env).Some? && BindExprs(ts, es, exprs).Some?
    ensures CarriedEnv(d, kind, BindTargets(ts, vs, env).value, BindExprs(ts, es, exprs).value, x)
    decreases ts, 0
  {
    if ts != [] {
      BindCarries(d, kind, ts[0], vs[0], es[0], env, exprs, x);
      BindAllCarries(d, kind, ts[1..], vs[1..], es[1..],
                  BindTarget(ts[0], vs[0], env).value, BindExpr(ts[0], es[0], exprs).value, x);
    }
  }

  // ---- Graphs ----

  /** Inlined callables have one output, and no other callable has the name of a built-in node that is lowered. */
  ghost predicate Inlinable(names: SymbolNames)
  {
    forall name, symbol :: CallableOf(names, name, symbol).Some? ==>
      var c := CallableOf(names, name, symbol).value;
      if |c.inputs| == 1 then |c.outputs| == 1 else !IsModelled(BuiltinOf(names, name, symbol))
  }

  lemma {:induction false} EndpointCarries(
    d: Device, kind: Kind, names: SymbolNames, e: TypedEndpoint, env: Env, exprs: ExprEnv, x: GValue, depth: nat, fuel: nat)
    requires Inlinable(names) && CarriedEnv(d, kind, env, exprs, x)
    requires LowerEndpoint(names, e, exprs, depth).Some? && RunEndpoint(d.world, names, e, env, fuel).Some?
    ensures Carries(d, kind, RunEndpoint(d.world, names, e, env, fuel).value,
                    LowerEndpoint(names, e, exprs, depth).value, x)
    decreases depth, 1, e, 0
  {
    hide RunStages, LowerStages, RunItems, LowerItems, Inlinable, Same, Written, Twins;
    match e.kind
    case Tuple(items) =>
      hide Carries;
      ItemsCarries(d, kind, names, items, env, exprs, x, depth, fuel);
      TupleCarries(d, kind, RunItems(d.world, names, items, env, fuel).value, LowerItems(names, items, exprs, depth).value, x);
    case Eval(source, stages) =>
      hide Carries, CarriedEnv;
      EndpointCarries(d, kind, names, source, env, exprs, x, depth, fuel);
      StagesCarries(d, kind, names, stages, RunEndpoint(d.world, names, source, env, fuel).value,
                 LowerEndpoint(names, source, exprs, depth).value, env, exprs, x, depth, fuel);
    case Variable(_) => hide Carries;
    case _ => LiteralCarries(d, kind, names, e, env, exprs, x, depth, fuel);
  }

  lemma TupleCarries(d: Device, kind: Kind, vs: seq<Value>, es: seq<GpuExpr>, x: GValue)
    requires |vs| == |es| && forall i :: 0 <= i < |vs| ==> Carries(d, kind, vs[i], es[i], x)
    ensures Carries(d, kind, TupleV(vs), XTuple(es), x)
  {}

  lemma LiteralCarries(
    d: Device, kind: Kind, names: SymbolNames, e: TypedEndpoint, env: Env, exprs: ExprEnv, x: GValue, depth: nat, fuel: nat)
    requires LowerEndpoint(names, e, exprs, depth).Some? && RunEndpoint(d.world, names, e, env, fuel).Some?
    requires !e.kind.Tuple? && !e.kind.Eval? && !e.kind.Variable?
    ensures Carries(d, kind, RunEndpoint(d.world, names, e, env, fuel).value,
                    LowerEndpoint(names, e, exprs, depth).value, x)
  {}

  lemma {:induction false} ItemsCarries(
    d: Device, kind: Kind, names: SymbolNames, items: seq<TypedEndpoint>, env: Env, exprs: ExprEnv, x: GValue,
    depth: nat, fuel: nat)
    requires Inlinable(names) && CarriedEnv(d, kind, env, exprs, x)
    requires LowerItems(names, items, exprs, depth).Some? && RunItems(d.world, names, items, env, fuel).Some?
    ensures
      var vs := RunItems(d.world, names, items, env, fuel).value;
      var es := LowerItems(names, items, exprs, depth).value;
      |vs| == |es| && forall i :: 0 <= i < |vs| ==> Carries(d, kind, vs[i], es[i], x)
    decreases depth, 1, items, 0
  {
    if items != [] {
      EndpointCarries(d, kind, names, items[0], env, exprs, x, depth, fuel);
      ItemsCarries(d, kind, names, items[1..], env, exprs, x, depth, fuel);
    }
  }

  lemma {:induction false} StagesCarries(
    d: Device, kind: Kind, names: SymbolNames, stages: seq<TypedStage>, v: Value, e: GpuExpr, env: Env, exprs: ExprEnv,
    x: GValue, depth: nat, fuel: nat)
    requires Inlinable(names) && CarriedEnv(d, kind, env, exprs, x) && Carries(d, kind, v, e, x)
    requires LowerStages(names, stages, e, exprs, depth).Some?
    requires RunStages(d.world, names, stages, v, env, fuel).Some?
    ensures
      var run := RunStages(d.world, names, stages, v, env, fuel).value;
      var lowered := LowerStages(names, stages, e, exprs, depth).value;
      Carries(d, kind, run.0, lowered.0, x) && CarriedEnv(d, kind, run.1, lowered.1, x)
    decreases depth, 1, stages, 0
  {
    hide CarriedEnv, Carries, Inlinable, RunCall, LowerCall, BindTarget, BindExpr;
    if stages != [] {
      match stages[0].kind
      case Call(name, symbol) =>
        CallCarries(d, kind, names, name, symbol, v, e, x, depth, fuel);
        StagesCarries(d, kind, names, stages[1..], RunCall(d.world, names, name, symbol, v, fuel).value,
                   LowerCall(names, name, symbol, e, depth).value, env, exprs, x, depth, fuel);
      case Bind(target) =>
        BindCarries(d, kind, target, v, e, env, exprs, x);
        StagesCarries(d, kind, names, stages[1..], v, e, BindTarget(target, v, env).value, BindExpr(target, e, exprs).value,
                   x, depth, fuel);
      case _ =>
    }
  }

  lemma {:induction false} ChainsCarries(
    d: Device, kind: Kind, names: SymbolNames, chains: seq<TypedChain>, env: Env, exprs: ExprEnv, x: GValue,
    depth: nat, fuel: nat)
    requires Inlinable(names) && CarriedEnv(d, kind, env, exprs, x)
    requires LowerChains(names, chains, exprs, depth).Some? && RunChains(d.world, names, chains, env, fuel).Some?
    ensures CarriedEnv(d, kind, RunChains(d.world, names, chains, env, fuel).value,
                    LowerChains(names, chains, exprs, depth).value, x)
    decreases depth, 2, |chains|, 0
  {
    hide CarriedEnv, Carries, Inlinable;
    if chains != [] {
      var c := chains[0];
      EndpointCarries(d, kind, names, c.source, env, exprs, x, depth, fuel);
      var v := RunEndpoint(d.world, names, c.source, env, fuel).value;
      var e := LowerEndpoint(names, c.source, exprs, depth).value;
      StagesCarries(d, kind, names, c.stages, v, e, env, exprs, x, depth, fuel);
      ChainsCarries(d, kind, names, chains[1..], RunStages(d.world, names, c.stages, v, env, fuel).value.1,
                 LowerStages(names, c.stages, e, exprs, depth).value.1, x, depth, fuel);
    }
  }

  lemma {:induction false} BodyCarries(
    d: Device, kind: Kind, names: SymbolNames, c: TypedCallable, v: Value, e: GpuExpr, x: GValue, depth: nat, fuel: nat)
    requires Inlinable(names) && |c.inputs| == 1 && |c.outputs| == 1 && Carries(d, kind, v, e, x)
    requires RunCallable(d.world, names, c, v, fuel).Some?
    requires LowerChains(names, c.chains, map[c.inputs[0].name := e], depth).Some?
    ensures
      var exprs := LowerChains(names, c.chains, map[c.inputs[0].name := e], depth).value;
      c.outputs[0].name in exprs ==>
      Carries(d, kind, RunCallable(d.world, names, c, v, fuel).value, exprs[c.outputs[0].name], x)
    decreases depth, 3, 0, 0
  {
    hide Carries, Inlinable;
    var env: Env := map[c.inputs[0].name := v];
    ChainsCarries(d, kind, names, c.chains, env, map[c.inputs[0].name := e], x, depth, fuel);
    assert Outputs(c.outputs[1..], RunChains(d.world, names, c.chains, env, fuel).value) == Some([]);
  }

  lemma {:induction false} CallCarries(
    d: Device, kind: Kind, names: SymbolNames, name: string, symbol: Option<SymbolId>, v: Value, e: GpuExpr, x: GValue,
    depth: nat, fuel: nat)
    requires Inlinable(names) && Carries(d, kind, v, e, x)
    requires LowerCall(names, name, symbol, e, depth).Some? && RunCall(d.world, names, name, symbol, v, fuel).Some?
    ensures Carries(d, kind, RunCall(d.world, names, name, symbol, v, fuel).value,
                    LowerCall(names, name, symbol, e, depth).value, x)
    decreases depth, 0, 0, 0
  {
    hide Carries, BuiltinPlain, LowerBuiltin, RunCallable;
    var found := CallableOf(names, name, symbol);
    if found.None? {
      BuiltinCarries(d, kind, BuiltinOf(names, name, symbol), v, e, x);
    } else if |found.value.inputs| == 1 {
      if TakesFaults(found.value) || !Faulty(v) {
        BodyCarries(d, kind, names, found.value, v, e, x, depth - 1, fuel - 1);
      } else {
        FaultsCarry(d, kind, RunCall(d.world, names, name, symbol, v, fuel).value,
                    LowerCall(names, name, symbol, e, depth).value, x);
      }
    } else {
      NotLowered(names, name, symbol, e);
    }
  }

  lemma NotLowered(names: SymbolNames, name: string, symbol: Option<SymbolId>, e: GpuExpr)
    requires Inlinable(names) && CallableOf(names, name, symbol).Some?
    requires |CallableOf(names, name, symbol).value.inputs| != 1
    ensures LowerBuiltin(BuiltinOf(names, name, symbol), e).None?
  {
    LoweredNames(BuiltinOf(names, name, symbol));
  }

  // ---- Kernels ----

  function Scalar(kind: Kind, v: Value): GValue
    requires v.I32V? || v.RealV?
  {
    if v.I32V? then IntLiteral(kind, v.n) else RealG(v.r)
  }

  predicate IsInput(kind: Kind, v: Value) { if kind == KI32 then v.I32V? && FitsI32(v.n) else v.RealV? }

  /**
   * A kernel of reals returns what the callable returns. A kernel of integers does too, unless the shader
   * is refused.
   */
  lemma KernelMeansCallable(d: Device, names: SymbolNames, c: TypedCallable, depth: nat, fuel: nat, v: Value)
    requires Inlinable(names) && LowerCallable(names, c, depth).Some?
    requires IsInput(KindOf(c).value, v) && RunCallable(d.world, names, c, v, fuel).Some?
    requires
      var w := RunCallable(d.world, names, c, v, fuel).value;
      IsInput(KindOf(c).value, w)
    ensures
      var kind := KindOf(c).value;
      var g := Eval(d, kind, LowerCallable(names, c, depth).value, Scalar(kind, v));
      g == Scalar(kind, RunCallable(d.world, names, c, v, fuel).value) || (kind == KI32 && g == ErrG)
  {
    KernelCarries(d, names, c, depth, fuel, v);
  }

  lemma KernelCarries(d: Device, names: SymbolNames, c: TypedCallable, depth: nat, fuel: nat, v: Value)
    requires Inlinable(names) && LowerCallable(names, c, depth).Some?
    requires IsInput(KindOf(c).value, v) && RunCallable(d.world, names, c, v, fuel).Some?
    ensures
      var kind := KindOf(c).value;
      Carries(d, kind, RunCallable(d.world, names, c, v, fuel).value, LowerCallable(names, c, depth).value, Scalar(kind, v))
  {
    var kind := KindOf(c).value;
    BodyCarries(d, kind, names, c, v, XVar("x"), Scalar(kind, v), depth, fuel);
  }

  /** And so does the shader: what is written for the device computes what the graph says. */
  lemma KernelShaderMeansCallable(d: Device, names: SymbolNames, c: TypedCallable, depth: nat, fuel: nat, v: Value)
    requires Inlinable(names) && LowerCallable(names, c, depth).Some?
    requires IsInput(KindOf(c).value, v) && RunCallable(d.world, names, c, v, fuel).Some?
    requires IsInput(KindOf(c).value, RunCallable(d.world, names, c, v, fuel).value)
    ensures
      var kind := KindOf(c).value;
      var g := EvalWgsl(d, ToWgsl(kind, LowerCallable(names, c, depth).value), Scalar(kind, v));
      g == Scalar(kind, RunCallable(d.world, names, c, v, fuel).value) || (kind == KI32 && g == ErrG)
  {
    KernelCarries(d, names, c, depth, fuel, v);
    var kind := KindOf(c).value;
    ShaderMeansExpression(d, kind, LowerCallable(names, c, depth).value, Scalar(kind, v));
    KernelMeansCallable(d, names, c, depth, fuel, v);
  }

  /**
   * Whether the shader of an integer kernel is refused does not depend on the input: it can be told from the
   * input zero. If it is not, the kernel returns its input, for arithmetic on integers may be a fault.
   */
  lemma RefusalIsStatic(d: Device, names: SymbolNames, c: TypedCallable, depth: nat, fuel: nat, v: Value)
    requires Inlinable(names) && LowerCallable(names, c, depth).Some? && KindOf(c) == Some(KI32)
    requires IsInput(KI32, v) && RunCallable(d.world, names, c, v, fuel).Some?
    requires IsInput(KI32, RunCallable(d.world, names, c, v, fuel).value)
    ensures
      var e := LowerCallable(names, c, depth).value;
      Eval(d, KI32, e, Scalar(KI32, v)) == ErrG <==> Eval(d, KI32, e, IntG(0)) == ErrG
    ensures RunCallable(d.world, names, c, v, fuel) == Some(v)
  {
    KernelCarries(d, names, c, depth, fuel, v);
  }

  // ---- Where inlining is right ----

  /** A value that cannot be a fault stands for one value of a real kernel. */
  lemma {:induction false} SameIsOne(kind: Kind, v: Value, g: GValue, h: GValue)
    requires kind != KI32 && !Faulty(v) && Same(kind, v, g) && Same(kind, v, h)
    ensures g == h
    decreases v
  {
    if v.TupleV? {
      forall i | 0 <= i < |v.items|
        ensures g.items[i] == h.items[i]
      {
        assert !Faulty(v.items[i]);
        SameIsOne(kind, v.items[i], g.items[i], h.items[i]);
      }
    }
  }

  /** Inlining keeps the first output only: that is the callable's value exactly when it is the only output. */
  lemma FirstOutputIsTheValueIff(d: Device, kind: Kind, c: TypedCallable, env: Env, exprs: ExprEnv, x: GValue)
    requires kind != KI32 && c.outputs != [] && SameEnv(d, kind, env, exprs, x)
    requires Returned(c.outputs, env).Some? && !Faulty(Returned(c.outputs, env).value)
    requires c.outputs[0].name in exprs
    ensures Same(kind, Returned(c.outputs, env).value, Eval(d, kind, exprs[c.outputs[0].name], x)) <==> |c.outputs| == 1
  {
    var w := Returned(c.outputs, env).value;
    var g := Eval(d, kind, exprs[c.outputs[0].name], x);
    var first := env[c.outputs[0].name];
    OutputsCount(c.outputs, env);
    assert Same(kind, first, g);
    if |c.outputs| > 1 {
      assert w.items[0] == first && !Faulty(first);
      TupleIsNotItsItem(kind, w, g);
    }
  }

  lemma TupleIsNotItsItem(kind: Kind, w: Value, g: GValue)
    requires kind != KI32 && w.TupleV? && w.items != [] && !Faulty(w.items[0]) && Same(kind, w.items[0], g)
    ensures !Same(kind, w, g)
  {
    if Same(kind, w, g) {
      Smaller(g);
      SameIsOne(kind, w.items[0], g, g.items[0]);
    }
  }

  lemma {:induction false} OutputsCount(ports: seq<TypedPort>, env: Env)
    requires Outputs(ports, env).Some?
    ensures |Outputs(ports, env).value| == |ports|
  {
    if ports != [] { OutputsCount(ports[1..], env); }
  }

  lemma Smaller(g: GValue)
    requires g.TupleG? && g.items != []
    ensures g.items[0] != g
  {
    assert g.items[0] < g;
  }

  /**
   * A callable that does not take one input is not inlined: the kernel computes the built-in node of its name.
   * That is the value of the call exactly when the callable returns what the built-in node does.
   */
  lemma NamesakesAreIgnored(
    d: Device, kind: Kind, names: SymbolNames, name: string, symbol: Option<SymbolId>, v: Value, e: GpuExpr, x: GValue,
    depth: nat, fuel: nat)
    requires kind != KI32 && Carries(d, kind, v, e, x)
    requires CallableOf(names, name, symbol).Some? && |CallableOf(names, name, symbol).value.inputs| != 1
    requires LowerCall(names, name, symbol, e, depth).Some? && RunCall(d.world, names, name, symbol, v, fuel).Some?
    requires Builtin(d.world, BuiltinOf(names, name, symbol), v).Some?
    requires RunCall(d.world, names, name, symbol, v, fuel).value.RealV?
    requires Builtin(d.world, BuiltinOf(names, name, symbol), v).value.RealV?
    ensures
      var run, builtin := RunCall(d.world, names, name, symbol, v, fuel).value, Builtin(d.world, BuiltinOf(names, name, symbol), v).value;
      var g := Eval(d, kind, LowerCall(names, name, symbol, e, depth).value, x);
      g == RealG(builtin.r) && (g == RealG(run.r) <==> run == builtin)
  {
    hide RunCall, Builtin, LowerBuiltin;
    BuiltinCarries(d, kind, BuiltinOf(names, name, symbol), v, e, x);
  }

  /** A node `add` that picks its first input: the kernel adds. */
  lemma NamesakesDiffer(d: Device, p: real, q: real)
    ensures
      var a, b := TypedPort("a", F64), TypedPort("b", F64);
      var names := SymbolNames(map["add" := TypedCallable(None, "add", true, [a, b], [a], [])], map[], map[]);
      var lowered := LowerCall(names, "add", None, XTuple([XReal(p), XReal(q)]), 1);
      && RunCall(d.world, names, "add", None, TupleV([RealV(p), RealV(q)]), 1) == Some(RealV(p))
      && lowered.Some?
      && Eval(d, KF64, lowered.value, RealG(0.0)) == RealG(p + q)
  {
    var a, b := TypedPort("a", F64), TypedPort("b", F64);
    var c := TypedCallable(None, "add", true, [a, b], [a], []);
    var names := SymbolNames(map["add" := c], map[], map[]);
    var v := TupleV([RealV(p), RealV(q)]);
    assert !Faulty(v.items[0]) && !Faulty(v.items[1]) && |v.items| == 2;
    assert !Faulty(v) && !TakesFaults(c);
    var ts := seq(2, i requires 0 <= i < 2 => Bound(c.inputs[i].name));
    assert ts == [Bound("a"), Bound("b")];
    assert ts[1..] == [Bound("b")] && v.items[1..] == [RealV(q)];
    var one: Env := map["a" := RealV(p)];
    assert BindTarget(Bound("a"), RealV(p), map[]) == Some(one);
    assert BindTargets(ts[1..], v.items[1..], one) == Some(map["a" := RealV(p), "b" := RealV(q)]);
    assert BindInputs(c.inputs, v) == Some(map["a" := RealV(p), "b" := RealV(q)]);
    assert Outputs(c.outputs[1..], map["a" := RealV(p), "b" := RealV(q)]) == Some([]);
    assert RunCallable(d.world, names, c, v, 0) == Some(RealV(p));
    var sum := XBinary(Add, XReal(p), XReal(q));
    assert LowerBuiltin("add", XTuple([XReal(p), XReal(q)])) == Some(sum);
    assert Eval(d, KF64, sum, RealG(0.0)) == RealG(p + q);
  }
}
