/** The emitter of src/codegen/llvm_text.rs: a counter, a text that grows, and a set of declarations. */
module LlvmText {
  import opened Ast
  import opened Types
  import opened Typed
  import opened SsaEmission
  import opened SsaTypes

  class LlvmText {
    const codegen: Codegen
    var temp: nat
    var out: seq<Instr>
    var declarations: set<Declaration>

    constructor (codegen: Codegen)
      ensures this.codegen == codegen && Written() == State(0, [], {})
    {
      this.codegen := codegen;
      temp := 0;
      out := [];
      declarations := {};
    }

    function Written(): State
      reads this
    {
      State(temp, out, declarations)
    }

    method NextTemp() returns (t: nat)
      modifies this
      ensures t == old(temp) && Written() == old(Written()).(temp := t + 1)
    {
      t := temp;
      temp := temp + 1;
    }

    method Write(i: Instr)
      modifies this
      ensures Written() == old(Written()).(code := old(out) + [i])
    {
      out := out + [i];
    }

    method DeclareSymbol(callee: Callee, output: Ty, inputs: seq<Ty>)
      modifies this
      ensures Written() == Declare(old(Written()), callee, output, inputs)
      ensures declarations == old(declarations) + {Declaration(callee, output, inputs)} && out == old(out)
    {
      declarations := declarations + {Declaration(callee, output, inputs)};
    }

    method ExtractTupleField(v: TextValue, index: nat) returns (r: Option<Operand>)
      modifies this
      ensures
        var spec := ExtractField(old(Written()), v, index);
        if spec.None? then r.None? else r == Some(spec.value.0) && Written() == spec.value.1
    {
      if !v.ty.Tuple? || index >= |v.ty.items| {
        return None;
      }
      var t := NextTemp();
      Write(Extract(t, v.ty, v.operand, index));
      return Some(Temp(t));
    }

    /** Declares a function and calls it. */
    method CallDeclared(callee: Callee, output: Ty, args: seq<TextValue>) returns (r: TextValue)
      modifies this
      ensures
        var spec := InvokeHelper(old(Written()), callee, output, args);
        r == spec.0 && Written() == spec.1
      ensures old(out) < out && IsDeclared(codegen, declarations, out[|old(out)|]) && |out| == |old(out)| + 1
    {
      DeclareSymbol(callee, output, seq(|args|, i requires 0 <= i < |args| => args[i].ty));
      var t := NextTemp();
      Write(Invoke(t, output, callee, args));
      return TextValue(Temp(t), output);
    }

    method EmitNumericBuiltin(name: string, input: TextValue, output: Ty) returns (r: Option<TextValue>)
      modifies this
      ensures r.Some? <==> IsNumeric(name, input.ty, output)
      ensures r.None? ==> Written() == old(Written())
      ensures r.Some? ==>
        var spec := EmitNumeric(old(Written()), name, input, output);
        r.value == spec.0 && Written() == spec.1
    {
      if !IsNumeric(name, input.ty, output) {
        return None;
      }
      var op := NumericInstruction(name, output).value;
      var left := ExtractTupleField(input, 0);
      var right := ExtractTupleField(input, 1);
      var t := NextTemp();
      if name == "min" || name == "max" {
        var cmp := NextTemp();
        var order := if output == F32 || output == F64 then "o" else "s";
        Write(Compare(cmp, order + (if name == "min" then "lt" else "gt"), output, left.value, right.value));
        Write(Choose(t, output, Temp(cmp), left.value, right.value));
      } else {
        Write(Arith(t, op, output, left.value, right.value));
      }
      return Some(TextValue(Temp(t), output));
    }

    method EmitNodeCall(name: string, input: TextValue) returns (r: Option<TextValue>)
      modifies this
      ensures
        var spec := EmitCall(codegen, old(Written()), name, input);
        if spec.None? then r.None? else r == Some(spec.value.0) && Written() == spec.value.1
      ensures
        r.Some? ==>
          old(out) <= out && forall i :: |old(out)| <= i < |out| ==> IsDeclared(codegen, declarations, out[i])
    {
      var output := codegen.outputType(name, input.ty);
      if output.None? {
        return None;
      }
      if name in codegen.callables {
        var t := NextTemp();
        Write(Invoke(t, output.value, Callee.User(name), [input]));
        return Some(TextValue(Temp(t), output.value));
      }
      if name in codegen.foreign {
        var v := CallDeclared(Callee.Foreign(codegen.foreign[name]), output.value, [input]);
        return Some(v);
      }
      var canonical := codegen.canonical(name);
      r := EmitNumericBuiltin(canonical, input, output.value);
      if r.None? {
        var v := CallDeclared(Builtin(canonical), output.value, [input]);
        return Some(v);
      }
    }

    /** Puts the values of a tuple into an aggregate, one after the other. */
    method InsertValues(ty: Ty, values: seq<TextValue>) returns (r: Operand)
      modifies this
      ensures
        var spec := InsertAll(old(Written()), ty, values, 0, Poison);
        r == spec.0 && Written() == spec.1
    {
      var current := Poison;
      for i := 0 to |values|
        invariant InsertAll(Written(), ty, values, i, current) == InsertAll(old(Written()), ty, values, 0, Poison)
      {
        var t := NextTemp();
        Write(Insert(t, ty, current, values[i].operand, i));
        current := Temp(t);
      }
      return current;
    }

    method EmitValue(e: TypedEndpoint, env: TextEnv) returns (r: Option<TextValue>)
      modifies this
      ensures
        var spec := EmitEndpoint(codegen, old(Written()), e, env);
        if spec.None? then r.None? else r == Some(spec.value.0) && Written() == spec.value.1
      decreases e, 0
    {
      match e.kind
      case Variable(x) => return if x in env then Some(env[x]) else None;
      case NodeRef(_) => return None;
      case Int(n) => return Some(TextValue(IntC(n), e.ty));
      case Real(x) => return Some(TextValue(RealC(x), e.ty));
      case RealF32(x) => return Some(TextValue(RealC(x), e.ty));
      case Bool(b) => return Some(TextValue(BoolC(b), e.ty));
      case Str(_) => return Some(TextValue(Default(Bytes), e.ty));
      case Unit => return Some(TextValue(Default(e.ty), e.ty));
      case Tuple(items) =>
        var values := EmitTupleItems(items, env);
        if values.None? {
          return None;
        }
        var built := InsertValues(e.ty, values.value);
        return Some(TextValue(built, e.ty));
      case Seq(_) => return Some(TextValue(Default(e.ty), e.ty));
      case Struct(_, _) => return None;
      case Eval(source, stages) =>
        if !HasContext(codegen, source, stages) {
          return None;
        }
        var v := EmitValue(source, env);
        if v.None? {
          return None;
        }
        var current := v.value;
        for i := 0 to |stages|
          invariant EmitInline(codegen, Written(), stages[i..], current, env)
            == EmitEndpoint(codegen, old(Written()), e, env)
        {
          assert stages[i..][1..] == stages[i + 1..];
          var next := EmitValueStage(stages[i], current, env);
          if next.None? {
            return None;
          }
          current := next.value;
        }
        return Some(current);
    }

    /** What is left to emit continues what has been emitted. */
    ghost predicate ItemsFrom(start: State, items: seq<TypedEndpoint>, env: TextEnv, values: seq<TextValue>, i: nat)
      requires i <= |items|
      reads this
    {
      var all := EmitItems(codegen, start, items, env);
      var rest := EmitItems(codegen, Written(), items[i..], env);
      if rest.None? then all.None?
      else all.Some? && all.value.0 == values + rest.value.0 && all.value.1 == rest.value.1
    }

    method EmitTupleItems(items: seq<TypedEndpoint>, env: TextEnv) returns (r: Option<seq<TextValue>>)
      modifies this
      ensures
        var spec := EmitItems(codegen, old(Written()), items, env);
        if spec.None? then r.None? else r == Some(spec.value.0) && Written() == spec.value.1
      decreases items, 0
    {
      var values: seq<TextValue> := [];
      for i := 0 to |items|
        invariant ItemsFrom(old(Written()), items, env, values, i)
      {
        assert items[i..][1..] == items[i + 1..];
        var v := EmitValue(items[i], env);
        if v.None? {
          return None;
        }
        ghost var rest := EmitItems(codegen, Written(), items[i + 1..], env);
        assert rest.Some? ==> values + ([v.value] + rest.value.0) == values + [v.value] + rest.value.0;
        values := values + [v.value];
      }
      ghost var all := EmitItems(codegen, old(Written()), items, env);
      assert items[|items|..] == [];
      assert EmitItems(codegen, Written(), items[|items|..], env) == Some(([], Written()));
      assert all.value.0 == values + [] == values;
      return Some(values);
    }

    method EmitValueStage(s: TypedStage, v: TextValue, env: TextEnv) returns (r: Option<TextValue>)
      modifies this
      ensures
        var spec := EmitStage(codegen, old(Written()), s, v, env);
        if spec.None? then r.None? else r == Some(spec.value.0) && Written() == spec.value.1
      decreases s, 0
    {
      var ty: Option<Ty> := None;
      match s.kind
      case Call(name, _) => r := EmitNodeCall(name, v);
      case Map(name) =>
        ty := MapType(codegen, name, v.ty);
        if ty.None? {
          return None;
        }
        var w := CallDeclared(Helper("map", name), ty.value, [v]);
        return Some(w);
      case Filter(name) =>
        ty := FilterType(codegen, name, v.ty);
        if ty.None? {
          return None;
        }
        var w := CallDeclared(Helper("filter", name), ty.value, [v]);
        return Some(w);
      case Repeat(node, count) =>
        var n := EmitValue(count, env);
        ty := codegen.outputType(node, v.ty);
        if n.None? || ty.None? {
          return None;
        }
        var w := CallDeclared(Helper("repeat", node), ty.value, [v, n.value.(ty := I64)]);
        return Some(w);
      case Reduce(op, identity) =>
        var i := EmitValue(identity, env);
        ty := if i.Some? then ReduceType(codegen, op, v.ty, i.value.ty) else None;
        if ty.None? {
          return None;
        }
        var w := CallDeclared(Helper("reduce", op), ty.value, [v, i.value]);
        return Some(w);
      case Scan(op, identity) =>
        var i := EmitValue(identity, env);
        ty := if i.Some? then ReduceType(codegen, op, v.ty, i.value.ty) else None;
        if ty.None? {
          return None;
        }
        var w := CallDeclared(Helper("scan", op), Ty.Seq(ty.value), [v, i.value]);
        return Some(w);
      case Match(_) =>
        var w := CallDeclared(Helper("match", ""), s.output, [v]);
        return Some(w);
      case _ => return None;
    }

    method BindTarget(t: BindingTarget, v: TextValue, env: TextEnv) returns (r: Option<TextEnv>)
      modifies this
      ensures
        var spec := EmitBind(old(Written()), t, v, env);
        if spec.None? then r.None? else r == Some(spec.value.0) && Written() == spec.value.1
      decreases t
    {
      match t
      case Drop => return Some(env);
      case Bound(x) => return if x in env then None else Some(env[x := v]);
      case Both(items) =>
        if !v.ty.Tuple? || |v.ty.items| != |items| {
          return None;
        }
        var current := env;
        for i := 0 to |items|
          invariant EmitBinds(Written(), items[i..], v, i, current) == EmitBinds(old(Written()), items, v, 0, env)
        {
          assert items[i..][1..] == items[i + 1..];
          var field := ExtractTupleField(v, i);
          var next := BindTarget(items[i], TextValue(field.value, v.ty.items[i]), current);
          if next.None? {
            return None;
          }
          current := next.value;
        }
        return Some(current);
    }

    method EmitChainStages(stages: seq<TypedStage>, source: TextValue, start: TextEnv) returns (r: Option<TextEnv>)
      modifies this
      ensures
        var spec := EmitStages(codegen, old(Written()), stages, source, start);
        if spec.None? then r.None? else r == Some(spec.value.0) && Written() == spec.value.1
    {
      var value, env := source, start;
      for i := 0 to |stages|
        invariant EmitStages(codegen, Written(), stages[i..], value, env)
          == EmitStages(codegen, old(Written()), stages, source, start)
      {
        assert stages[i..][1..] == stages[i + 1..];
        match stages[i].kind {
          case Bind(target) =>
            var next := BindTarget(target, value, env);
            if next.None? {
              return None;
            }
            env := next.value;
          case FaultMap(node, ok, fault) =>
            var ty := FaultMapType(codegen, node, value.ty);
            if ty.None? {
              return None;
            }
            var parts := CallDeclared(Helper("fault_map", node), ty.value, [value]);
            var oks := ExtractTupleField(parts, 0);
            var faults := ExtractTupleField(parts, 1);
            env := env[ok := TextValue(oks.value, ty.value.items[0])][fault := TextValue(faults.value, ty.value.items[1])];
          case _ =>
            var next := EmitValueStage(stages[i], value, env);
            if next.None? {
              return None;
            }
            value := next.value;
        }
      }
      return Some(env);
    }

    method EmitResult(ports: seq<TypedPort>, env: TextEnv, ty: Ty) returns (r: Option<TextValue>)
      modifies this
      ensures
        var spec := EmitOutputs(old(Written()), ports, env, ty);
        if spec.None? then r.None? else r == Some(spec.value.0) && Written() == spec.value.1
    {
      if ports == [] {
        return Some(TextValue(Default(Ty.Unit), Ty.Unit));
      }
      if |ports| == 1 {
        return if ports[0].name in env then Some(env[ports[0].name]) else None;
      }
      if !ty.Tuple? {
        return None;
      }
      var values := OutputValues(if |ports| <= |ty.items| then ports else ports[..|ty.items|], env);
      if values.None? {
        return None;
      }
      var built := InsertValues(ty, values.value);
      return Some(TextValue(built, ty));
    }

    method EmitFunction(c: TypedCallable, input: Ty, output: Ty) returns (r: Option<Function>)
      modifies this
      ensures
        var spec := EmitCallable(codegen, c, input, output, old(declarations));
        if spec.None? then r.None? else r == Some(spec.value.0) && Written() == spec.value.1
      ensures
        r.Some? ==>
          && Adds(codegen, input, State(0, [], old(declarations)), Written())
          && r.value.code == out && Has(out, input, r.value.result)
    {
      hide Adds, Has;
      temp := 0;
      out := [];
      var env: TextEnv := map[];
      if |c.inputs| == 1 {
        env := map[c.inputs[0].name := TextValue(Input, input)];
      } else if |c.inputs| > 1 {
        if !input.Tuple? {
          return None;
        }
        var count := if |c.inputs| <= |input.items| then |c.inputs| else |input.items|;
        for i := 0 to count
          invariant EmitInputs(Written(), c.inputs, input, i, env) == Entered(c, input, old(declarations))
        {
          var t := NextTemp();
          Write(Extract(t, input, Input, i));
          env := env[c.inputs[i].name := TextValue(Temp(t), input.items[i])];
        }
      }
      assert (env, Written()) == Entered(c, input, old(declarations));
      for i := 0 to |c.chains|
        invariant EmitChains(codegen, Written(), c.chains[i..], env)
          == EmitChains(codegen, Entered(c, input, old(declarations)).1, c.chains, Entered(c, input, old(declarations)).0)
      {
        var chain := c.chains[i];
        assert c.chains[i..][1..] == c.chains[i + 1..];
        if !HasContext(codegen, chain.source, chain.stages) {
          return None;
        }
        var value := EmitValue(chain.source, env);
        if value.None? {
          return None;
        }
        var next := EmitChainStages(chain.stages, value.value, env);
        if next.None? {
          return None;
        }
        env := next.value;
      }
      var result := EmitResult(c.outputs, env, output);
      if result.None? {
        return None;
      }
      CallableAdds(codegen, c, input, output, old(declarations));
      return Some(Function(out, result.value));
    }
  }
}
