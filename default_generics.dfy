/** The hand-written expansion of builder-pattern/examples/default-generics.rs:
    how a builder is meant to start, to pass values through its setters and
    to resolve each field in `build`, depending on whether the field is
    required, has an early-bound default (evaluated in `new()` and stored
    with its equality witness) or a late-bound one (evaluated in `build`,
    once the field's type is known). */
module DefaultGenerics {
  import opened Wrappers
  import opened Setter
  import Refl

  /** The three kinds of field of the expansion. */
  datatype Category = Required | EarlyBound(expr: string) | LateBound(expr: string)

  /** A field of the expansion: its kind and its type. */
  datatype ExpField = ExpField(cat: Category, ty: string)

  /** The `unreachable!` texts of the expansion's `build`. */
  const RequiredNotSet := "internal error: entered unreachable code: required field not set"
  const NoEarlyDefault := "internal error: entered unreachable code: early-bound optional field had no default set in new()"
  const NoLateDefault := "internal error: entered unreachable code: field should have had default"
  const LateSetInNew := "internal error: entered unreachable code: late-bound optional field was set in new()"

  /** The `match self.f { ... }` of `build` for one field. */
  function Resolve(cat: Category, x: Option<ValueRepr>, env: Env): (r: Outcome<Value>)
    ensures !r.Failed?
    ensures r.Done? <==> x.Some? && (|| x.value.Value? || x.value.Lazy?
                                     || (cat.EarlyBound? && x.value.Default?)
                                     || (cat.LateBound? && x.value.LateBoundDefault?))
    ensures cat.EarlyBound? && x.Some? && x.value.Default? ==> r == Done(x.value.raw)
    ensures cat.LateBound? && x.Some? && x.value.LateBoundDefault? ==> r == Done(env.eval(cat.expr))
  {
    match (cat, x)
    case (_, Some(Value(v))) => Done(v)
    case (_, Some(Lazy(f))) => Done(f.output)
    case (Required, None) => Panicked(RequiredNotSet)
    case (Required, Some(LateBoundDefault(_))) => Panicked(RequiredNotSet)
    case (Required, Some(Default(_, _))) => Panicked(RequiredNotSet)
    case (EarlyBound(_), None) => Panicked(NoEarlyDefault)
    case (EarlyBound(_), Some(LateBoundDefault(_))) => Panicked(NoEarlyDefault)
    case (EarlyBound(_), Some(Default(d, id))) => Done(Refl.Cast(id, Refl.Typed(id.source, d)).value)
    case (LateBound(_), None) => Panicked(NoLateDefault)
    case (LateBound(e), Some(LateBoundDefault(id))) => Done(Refl.Cast(id, Refl.Typed(id.source, env.eval(e))).value)
    case (LateBound(_), Some(Default(_, _))) => Panicked(LateSetInNew)
    case _ => Panicked("not implemented")
  }

  /** What a field resolves to when no setter touched it: the evaluated
      default of an optional field. */
  function DefaultValue(cat: Category, env: Env): Value
    requires !cat.Required?
  {
    env.eval(cat.expr)
  }

  /** The value `new()` gives a field. */
  function Initial(f: ExpField, env: Env): (x: Option<ValueRepr>)
    ensures x.None? <==> f.cat.Required?
    ensures x.Some? ==> (x.value.Default? <==> f.cat.EarlyBound?) && (x.value.LateBoundDefault? <==> f.cat.LateBound?)
    ensures x.Some? ==> x.value.id == Refl.Refl(f.ty)
    ensures f.cat.EarlyBound? ==> x.value.raw == env.eval(f.cat.expr)
  {
    match f.cat
    case Required => None
    case EarlyBound(e) => Some(Default(env.eval(e), Refl.Refl(f.ty)))
    case LateBound(_) => Some(LateBoundDefault(Refl.Refl(f.ty)))
  }

  /** Resolution never reports an error, only values and panics. The fields
      `new()` starts with resolve to their defaults, a field holding a value
      or a producer resolves to it whatever its kind, and a required field
      that holds neither panics. */
  lemma ResolveMeaning(f: ExpField, x: Option<ValueRepr>, env: Env)
    ensures !Resolve(f.cat, x, env).Failed?
    ensures !f.cat.Required? ==> Resolve(f.cat, Initial(f, env), env) == Done(DefaultValue(f.cat, env))
    ensures f.cat.Required? ==> (Resolve(f.cat, x, env).Done? <==> x.Some? && (x.value.Value? || x.value.Lazy?))
    ensures x.Some? && x.value.Value? ==> Resolve(f.cat, x, env) == Done(x.value.v)
  {
  }

  /** How a setter of another field carries a late-bound field over:
      `LateBoundDefault` and `Value` pass through, anything else cannot
      occur. */
  function PassThrough(x: Option<ValueRepr>): (r: Outcome<Option<ValueRepr>>)
    ensures !r.Failed?
    ensures r.Done? <==> x.Some? && (x.value.LateBoundDefault? || x.value.Value?)
    ensures r.Done? ==> r.value == x
  {
    match x
    case Some(LateBoundDefault(d)) => Done(Some(LateBoundDefault(d)))
    case Some(Value(v)) => Done(Some(Value(v)))
    case _ => Panicked("internal error: entered unreachable code")
  }

  /** A builder of the expansion: which slots are set, and the fields. */
  datatype ExpBuilder = ExpBuilder(isSet: seq<bool>, values: seq<Option<ValueRepr>>)

  /** `new()`: no slot set, every field at its initial value. */
  function New(fields: seq<ExpField>, env: Env): (b: ExpBuilder)
    ensures |b.isSet| == |fields| && |b.values| == |fields|
  {
    ExpBuilder(seq(|fields|, _ => false), seq(|fields|, k requires 0 <= k < |fields| => Initial(fields[k], env)))
  }

  /** The other fields as a setter's struct literal writes them: copied, or
      passed through for late-bound fields. */
  function Carried(fields: seq<ExpField>, values: seq<Option<ValueRepr>>, i: nat): (r: seq<Outcome<Option<ValueRepr>>>)
    requires |values| == |fields|
    ensures |r| == |fields|
  {
    seq(|fields|, j requires 0 <= j < |fields| =>
      if j == i then Done(values[j])
      else if fields[j].cat.LateBound? then PassThrough(values[j])
      else Done(values[j]))
  }

  /** Setter `i` with value `v`: only on a builder whose slot `i` is unset
      (`None` otherwise: the call does not type-check). */
  function Set(fields: seq<ExpField>, b: ExpBuilder, i: nat, v: Value): (r: Option<Outcome<ExpBuilder>>)
    requires |b.isSet| == |fields| && |b.values| == |fields|
    ensures r.None? <==> i >= |fields| || b.isSet[i]
    ensures r.Some? ==> !r.value.Failed?
    ensures r.Some? && r.value.Done? ==>
      && r.value.value.isSet == b.isSet[i := true]
      && r.value.value.values == b.values[i := Some(Value(v))]
  {
    if i >= |fields| || b.isSet[i] then None
    else
      var outs := Carried(fields, b.values, i);
      assert forall k :: 0 <= k < |outs| ==> !outs[k].Failed? && (outs[k].Done? ==> outs[k].value == b.values[k]);
      var o := Collect(outs);
      if o.Done? then Some(Done(ExpBuilder(b.isSet[i := true], o.value[i := Some(Value(v))])))
      else Some(Stop(o))
  }

  /** `build`: available once every required slot is set; resolves the
      fields in order. */
  function Build(fields: seq<ExpField>, b: ExpBuilder, env: Env): (r: Option<Outcome<seq<Value>>>)
    requires |b.isSet| == |fields| && |b.values| == |fields|
    ensures r.None? <==> exists k :: 0 <= k < |fields| && fields[k].cat.Required? && !b.isSet[k]
    ensures r.Some? ==> !r.value.Failed?
    ensures r.Some? && r.value.Done? ==>
      |r.value.value| == |fields| && forall k :: 0 <= k < |fields| ==> Resolve(fields[k].cat, b.values[k], env) == Done(r.value.value[k])
  {
    if exists k :: 0 <= k < |fields| && fields[k].cat.Required? && !b.isSet[k] then None
    else Some(Collect(seq(|fields|, k requires 0 <= k < |fields| => Resolve(fields[k].cat, b.values[k], env))))
  }

  /** One call of a setter: slot and value. */
  datatype Assignment = Assignment(index: nat, v: Value)

  /** The setter calls applied in order to `new()`. */
  function SetAll(fields: seq<ExpField>, calls: seq<Assignment>, env: Env): Option<Outcome<ExpBuilder>>
  {
    if calls == [] then Some(Done(New(fields, env)))
    else
      match SetAll(fields, calls[..|calls| - 1], env)
      case Some(Done(b)) =>
        if |b.isSet| == |fields| && |b.values| == |fields| then Set(fields, b, calls[|calls| - 1].index, calls[|calls| - 1].v)
        else None
      case other => other
  }

  /** The calls set distinct slots of existing fields. */
  predicate DistinctCalls(fields: seq<ExpField>, calls: seq<Assignment>)
  {
    && (forall c :: 0 <= c < |calls| ==> calls[c].index < |fields|)
    && (forall c, d :: 0 <= c < d < |calls| ==> calls[c].index != calls[d].index)
  }

  /** The value the calls give slot `k`, if any. */
  function Assigned(calls: seq<Assignment>, k: nat): Option<Value>
  {
    if calls == [] then None
    else if calls[|calls| - 1].index == k then Some(calls[|calls| - 1].v)
    else Assigned(calls[..|calls| - 1], k)
  }

  /** The builder after the calls: set slots are exactly the called ones;
      each called field holds its value, every other its initial value. */
  lemma {:induction false} SetAllState(fields: seq<ExpField>, calls: seq<Assignment>, env: Env)
    requires DistinctCalls(fields, calls)
    ensures SetAll(fields, calls, env).Some? && SetAll(fields, calls, env).value.Done?
    ensures var b := SetAll(fields, calls, env).value.value;
      && |b.isSet| == |fields| && |b.values| == |fields|
      && (forall k :: 0 <= k < |fields| ==> (b.isSet[k] <==> Assigned(calls, k).Some?))
      && (forall k :: 0 <= k < |fields| ==>
            b.values[k] == if Assigned(calls, k).Some? then Some(Value(Assigned(calls, k).value)) else Initial(fields[k], env))
  {
    if calls != [] {
      var prefix := calls[..|calls| - 1];
      var last := calls[|calls| - 1];
      assert DistinctCalls(fields, prefix);
      SetAllState(fields, prefix, env);
      var b := SetAll(fields, prefix, env).value.value;
      assert Assigned(prefix, last.index).None? by {
        AssignedFrom(prefix, last.index);
      }
      var outs := Carried(fields, b.values, last.index);
      forall j | 0 <= j < |outs| ensures outs[j] == Done(b.values[j]) {
        if j != last.index && fields[j].cat.LateBound? {
          assert b.values[j].Some? && (b.values[j].value.LateBoundDefault? || b.values[j].value.Value?);
        }
      }
      var vs := Collect(outs).value;
      assert vs == b.values;
    }
  }

  /** A slot the calls assign is the slot of one of them. */
  lemma {:induction false} AssignedFrom(calls: seq<Assignment>, k: nat)
    ensures Assigned(calls, k).Some? <==> exists c :: 0 <= c < |calls| && calls[c].index == k
  {
    if calls != [] {
      var prefix := calls[..|calls| - 1];
      AssignedFrom(prefix, k);
      if exists c :: 0 <= c < |calls| && calls[c].index == k {
        var c :| 0 <= c < |calls| && calls[c].index == k;
        if c < |calls| - 1 {
          assert prefix[c].index == k;
        }
      }
      if exists c :: 0 <= c < |prefix| && prefix[c].index == k {
        var c :| 0 <= c < |prefix| && prefix[c].index == k;
        assert calls[c].index == k;
      }
    }
  }

  /** The intended protocol end to end: after setter calls on distinct slots
      that cover every required field, in any order, `build` is available
      and yields each set value, and each default for an optional field no
      setter touched. */
  lemma IntendedBuild(fields: seq<ExpField>, calls: seq<Assignment>, env: Env)
    requires DistinctCalls(fields, calls)
    requires forall k :: 0 <= k < |fields| && fields[k].cat.Required? ==> Assigned(calls, k).Some?
    ensures SetAll(fields, calls, env).Some? && SetAll(fields, calls, env).value.Done?
    ensures var b := SetAll(fields, calls, env).value.value;
      && |b.isSet| == |fields| && |b.values| == |fields|
      && Build(fields, b, env) == Some(Done(seq(|fields|, k requires 0 <= k < |fields| =>
           if Assigned(calls, k).Some? then Assigned(calls, k).value else DefaultValue(fields[k].cat, env))))
  {
    SetAllState(fields, calls, env);
    var b := SetAll(fields, calls, env).value.value;
    var outs := seq(|fields|, k requires 0 <= k < |fields| => Resolve(fields[k].cat, b.values[k], env));
    forall k | 0 <= k < |fields|
      ensures outs[k] == Done(if Assigned(calls, k).Some? then Assigned(calls, k).value else DefaultValue(fields[k].cat, env))
    {
      ResolveMeaning(fields[k], b.values[k], env);
    }
    var expected := seq(|fields|, k requires 0 <= k < |fields| =>
      if Assigned(calls, k).Some? then Assigned(calls, k).value else DefaultValue(fields[k].cat, env));
    assert Collect(outs).value == expected;
    assert !exists k :: 0 <= k < |fields| && fields[k].cat.Required? && !b.isSet[k];
  }

  /** Calling the same setter twice does not type-check. */
  lemma SecondCallRejected(fields: seq<ExpField>, calls: seq<Assignment>, v: Value, env: Env)
    requires DistinctCalls(fields, calls) && calls != []
    ensures SetAll(fields, calls + [Assignment(calls[0].index, v)], env).None?
  {
    SetAllState(fields, calls, env);
    var all := calls + [Assignment(calls[0].index, v)];
    assert all[..|all| - 1] == calls;
    AssignedFrom(calls, calls[0].index);
  }

  // ---- `Op<T = f64>`: a default that fixes a type parameter ----

  /** `OpBuilder<'fn_lifetime, T, S1, AsyncFieldMarker, ValidatorOption>`
      with the value of `optional_field`. */
  datatype OpBuilder = OpBuilder(t: string, slot: Option<string>, markers: seq<string>, optionalField: Option<ValueRepr>)

  /** `Op::<f64>::new()`: declared only on `Op<f64>`; the slot is `()` but
      the field already holds the default `None` with its witness. */
  function OpNew(): OpBuilder
  {
    OpBuilder("f64", None, ["()", "()"], Some(Default("None", Refl.Refl("Option<f64>"))))
  }

  /** `optional_field::<T_>(value: Option<T_>)`: on a builder whose slot is
      `()`; rebinds `T` to `T_` and the slot to `Option<T_>`. */
  function OpSetOptionalField(b: OpBuilder, tNew: string, value: Value): Option<OpBuilder>
  {
    if b.slot.Some? then None
    else Some(OpBuilder(tNew, Some("Option<" + tNew + ">"), b.markers, Some(Value(value))))
  }

  /** `build`: for any slot, when both markers are `()`; gives an `Op<T>`. */
  function OpBuild(b: OpBuilder, env: Env): Option<(string, Outcome<Value>)>
  {
    if b.markers != ["()", "()"] then None
    else Some(("Op<" + b.t + ">", Resolve(EarlyBound("None"), b.optionalField, env)))
  }

  /** `Op::new().build()` is an `Op<f64>` holding the default `None`;
      `Op::new().optional_field(x).build()` with `x: Option<T_>` is an
      `Op<T_>` holding `x`; and the setter cannot be called twice. */
  lemma OpInference(tNew: string, value: Value, env: Env)
    ensures OpBuild(OpNew(), env) == Some(("Op<f64>", Done("None")))
    ensures OpSetOptionalField(OpNew(), tNew, value).Some?
    ensures OpBuild(OpSetOptionalField(OpNew(), tNew, value).value, env) == Some(("Op<" + tNew + ">", Done(value)))
    ensures OpSetOptionalField(OpSetOptionalField(OpNew(), tNew, value).value, tNew, value).None?
  {
    var id := Refl.Refl("Option<f64>");
    assert Refl.Cast(id, Refl.Typed(id.source, "None")).value == "None";
    assert "Op<" + "f64" + ">" == "Op<f64>";
  }
}
