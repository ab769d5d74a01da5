/** Using a generated builder: `new()`, a chain of setter calls, then
    `build`. The builder's type records which fields have been set, so the
    compiler accepts a chain exactly when it sets distinct fields that are
    still unset, and accepts `build` exactly when every required field is
    set. */
module Protocol {
  import opened Wrappers
  import opened Attributes
  import opened Fields
  import opened StructInputs
  import opened TypeState
  import opened Setter
  import opened BuilderFunctions
  import opened StructImpls
  import BuilderImpls
  import DefaultGenerics

  /** One setter call: the setter and its argument. */
  datatype Invocation = Invocation(plan: SetterPlan, arg: Arg)

  /** Calls of setters the generator emitted for `si`, each with an argument
      of the shape the setter takes. */
  predicate WellFormed(si: StructInput, calls: seq<Invocation>)
  {
    forall i :: 0 <= i < |calls| ==> calls[i].plan in Plans(si) && ArgFits(calls[i].plan.kind, calls[i].arg)
  }

  /** The builder type after the chain, as the compiler infers it; `None`
      when some call of the chain does not type-check. */
  function Typed(calls: seq<Invocation>, s: State): Option<State>
    decreases |calls|
  {
    if calls == [] then Some(s)
    else
      match Apply(calls[0].plan.impl, calls[0].plan.ret, s)
      case None => None
      case Some(s1) => Typed(calls[1..], s1)
  }

  /** Running the chain: `None` when a call does not type-check; otherwise
      the final builder, or the outcome of the first call that does not
      return one. */
  function RunSetters(calls: seq<Invocation>, b: Builder, env: Env): Option<Outcome<Builder>>
    decreases |calls|
  {
    if calls == [] then Some(Done(b))
    else
      match Call(calls[0].plan, b, calls[0].arg, env)
      case None => None
      case Some(o) => if o.Done? then RunSetters(calls[1..], o.value, env) else Some(Stop(o))
  }

  /** No field is set twice. */
  predicate Distinct(calls: seq<Invocation>)
  {
    forall i, j :: 0 <= i < j < |calls| ==> calls[i].plan.index != calls[j].plan.index
  }

  predicate Called(calls: seq<Invocation>, k: nat)
  {
    exists i :: 0 <= i < |calls| && calls[i].plan.index == k
  }

  predicate AnyAsync(calls: seq<Invocation>)
  {
    exists i :: 0 <= i < |calls| && calls[i].plan.kind == AsyncSetter
  }

  /** Some call hands a producer to a field with a validator. */
  predicate AnyValidatedProducer(si: StructInput, calls: seq<Invocation>)
  {
    exists i :: 0 <= i < |calls| && calls[i].plan.kind != ValueSetter
      && calls[i].plan.index < NumFields(si) && AllFields(si)[calls[i].plan.index].attrs.validator.Some?
  }

  /** The builder type once the calls have been made: each called slot holds
      its field type, the async marker is set by an async call, the validator
      marker by a producer handed to a validated field. */
  function StateAfter(si: StructInput, s: State, calls: seq<Invocation>): State
    requires |s.slots| == NumFields(si) && |s.markers| == 2
  {
    State(
      seq(NumFields(si), k requires 0 <= k < NumFields(si) =>
        if Called(calls, k) then Ty(AllFields(si)[k].ty) else s.slots[k]),
      [if AnyAsync(calls) then AsyncBuilderMarker else s.markers[0],
       if AnyValidatedProducer(si, calls) then HavingLazyValidator else s.markers[1]])
  }

  /** The type after the first call of a chain, as `SetterTransition`
      states it. */
  function Step(si: StructInput, c: Invocation, s: State): State
    requires c.plan.index < NumFields(si) && |s.slots| == NumFields(si) && |s.markers| == 2
  {
    var f := AllFields(si)[c.plan.index];
    State(
      s.slots[c.plan.index := Ty(f.ty)],
      [if c.plan.kind == AsyncSetter then AsyncBuilderMarker else s.markers[0],
       if c.plan.kind != ValueSetter && f.attrs.validator.Some? then HavingLazyValidator else s.markers[1]])
  }

  lemma CalledStep(calls: seq<Invocation>, k: nat)
    requires calls != []
    ensures Called(calls, k) <==> calls[0].plan.index == k || Called(calls[1..], k)
  {
    if Called(calls[1..], k) {
      var i :| 0 <= i < |calls[1..]| && calls[1..][i].plan.index == k;
      assert calls[i + 1].plan.index == k;
    }
  }

  lemma AnyStep(si: StructInput, calls: seq<Invocation>)
    requires calls != []
    ensures AnyAsync(calls) <==> calls[0].plan.kind == AsyncSetter || AnyAsync(calls[1..])
    ensures AnyValidatedProducer(si, calls) <==>
      (calls[0].plan.kind != ValueSetter && calls[0].plan.index < NumFields(si)
       && AllFields(si)[calls[0].plan.index].attrs.validator.Some?)
      || AnyValidatedProducer(si, calls[1..])
  {
    var rest := calls[1..];
    if AnyAsync(rest) {
      var i :| 0 <= i < |rest| && rest[i].plan.kind == AsyncSetter;
      assert calls[i + 1] == rest[i];
    }
    if AnyValidatedProducer(si, rest) {
      var i :| 0 <= i < |rest| && rest[i].plan.kind != ValueSetter
        && rest[i].plan.index < NumFields(si) && AllFields(si)[rest[i].plan.index].attrs.validator.Some?;
      assert calls[i + 1] == rest[i];
    }
  }

  /** `StateAfter` takes the calls one at a time. */
  lemma StateAfterStep(si: StructInput, s: State, calls: seq<Invocation>)
    requires calls != [] && calls[0].plan.index < NumFields(si)
    requires |s.slots| == NumFields(si) && |s.markers| == 2
    ensures StateAfter(si, Step(si, calls[0], s), calls[1..]) == StateAfter(si, s, calls)
  {
    var s1 := Step(si, calls[0], s);
    var a := StateAfter(si, s, calls);
    var a1 := StateAfter(si, s1, calls[1..]);
    forall k | 0 <= k < NumFields(si) ensures a.slots[k] == a1.slots[k] {
      CalledStep(calls, k);
    }
    AnyStep(si, calls);
    assert a.slots == a1.slots;
    assert a.markers == a1.markers;
  }

  /** Setting a fresh slot keeps the remaining calls' conditions. */
  lemma FreshStep(calls: seq<Invocation>, slots: seq<TypeArg>, t: TypeArg)
    requires calls != [] && calls[0].plan.index < |slots| && t != Unit
    requires forall i :: 0 <= i < |calls| ==> calls[i].plan.index < |slots|
    ensures (Distinct(calls) && forall i :: 0 <= i < |calls| ==> slots[calls[i].plan.index] == Unit) <==>
      && slots[calls[0].plan.index] == Unit
      && Distinct(calls[1..])
      && forall i :: 0 <= i < |calls[1..]| ==> slots[calls[0].plan.index := t][calls[1..][i].plan.index] == Unit
  {
    var rest := calls[1..];
    var slots1 := slots[calls[0].plan.index := t];
    if slots[calls[0].plan.index] == Unit && Distinct(rest) && forall i :: 0 <= i < |rest| ==> slots1[rest[i].plan.index] == Unit {
      forall i, j | 0 <= i < j < |calls| ensures calls[i].plan.index != calls[j].plan.index {
        if i > 0 {
          assert rest[i - 1] == calls[i] && rest[j - 1] == calls[j];
        } else {
          assert slots1[rest[j - 1].plan.index] == Unit;
        }
      }
      forall i | 0 <= i < |calls| ensures slots[calls[i].plan.index] == Unit {
        if i > 0 {
          assert slots1[rest[i - 1].plan.index] == Unit;
        }
      }
    }
    if Distinct(calls) && forall i :: 0 <= i < |calls| ==> slots[calls[i].plan.index] == Unit {
      forall i | 0 <= i < |rest| ensures slots1[rest[i].plan.index] == Unit {
        assert calls[i + 1] == rest[i];
      }
    }
  }

  /** A chain type-checks exactly when it sets distinct fields whose slots
      are still `()`; its type is then `StateAfter`, whatever the order of
      the calls. In particular no setter can be called twice. */
  lemma {:induction false} TypedChain(si: StructInput, calls: seq<Invocation>, s: State)
    requires forall i :: 0 <= i < |calls| ==> calls[i].plan in Plans(si)
    requires |s.slots| == NumFields(si) && |s.markers| == 2
    ensures forall i :: 0 <= i < |calls| ==> calls[i].plan.index < NumFields(si)
    ensures Typed(calls, s).Some? <==> Distinct(calls) && forall i :: 0 <= i < |calls| ==> s.slots[calls[i].plan.index] == Unit
    ensures Typed(calls, s).Some? ==> Typed(calls, s).value == StateAfter(si, s, calls)
  {
    forall i | 0 <= i < |calls| ensures calls[i].plan.index < NumFields(si) {
      SetterTransition(si, calls[i].plan, s);
    }
    if calls == [] {
      assert StateAfter(si, s, calls).slots == s.slots;
      assert StateAfter(si, s, calls).markers == s.markers;
    } else {
      var c := calls[0];
      SetterTransition(si, c.plan, s);
      FreshStep(calls, s.slots, Ty(AllFields(si)[c.plan.index].ty));
      if s.slots[c.plan.index] == Unit {
        var s1 := Step(si, c, s);
        assert Apply(c.plan.impl, c.plan.ret, s) == Some(s1);
        TypedChain(si, calls[1..], s1);
        StateAfterStep(si, s, calls);
      }
    }
  }

  /** The call stores what its setter stores for its argument, and the
      field then holds exactly that. */
  predicate StoredBy(c: Invocation, x: Option<ValueRepr>, env: Env)
  {
    && c.plan.index < |c.plan.fields|
    && c.plan.fields[c.plan.index].Stored?
    && x.Some?
    && StoredEntry(c.plan, c.plan.fields[c.plan.index].store, c.arg, env) == Some(Ok(x.value))
  }

  /** The call's setter accepts its argument (a validated value setter
      whose validator rejects the value does not). */
  predicate Accepted(c: Invocation, env: Env)
  {
    && c.plan.index < |c.plan.fields|
    && c.plan.fields[c.plan.index].Stored?
    && StoredEntry(c.plan, c.plan.fields[c.plan.index].store, c.arg, env).Some?
    && StoredEntry(c.plan, c.plan.fields[c.plan.index].store, c.arg, env).value.Ok?
  }

  /** One call: it type-checks exactly when its slot is `()`; then it
      returns the builder of type `Step` holding the stored entry in its
      field when the setter accepts the argument, and otherwise fails with a
      validator's message. */
  lemma CallStep(si: StructInput, c: Invocation, b: Builder, env: Env)
    requires c.plan in Plans(si) && ArgFits(c.plan.kind, c.arg)
    requires |b.state.slots| == NumFields(si) && |b.state.markers| == 2 && |b.values| == NumFields(si)
    ensures c.plan.index < NumFields(si) && c.plan.index < |c.plan.fields| && c.plan.fields[c.plan.index].Stored?
    ensures StoredEntry(c.plan, c.plan.fields[c.plan.index].store, c.arg, env).Some?
    ensures Call(c.plan, b, c.arg, env).Some? <==> b.state.slots[c.plan.index] == Unit
    ensures Call(c.plan, b, c.arg, env).Some? && Accepted(c, env) ==>
      Call(c.plan, b, c.arg, env).value == Done(Builder(Step(si, c, b.state),
        b.values[c.plan.index := Some(StoredEntry(c.plan, c.plan.fields[c.plan.index].store, c.arg, env).value.value)]))
    ensures Call(c.plan, b, c.arg, env).Some? && !Accepted(c, env) ==>
      && Call(c.plan, b, c.arg, env).value.Failed?
      && c.plan.kind == ValueSetter && AllFields(si)[c.plan.index].attrs.validator.Some?
      && |Call(c.plan, b, c.arg, env).value.error| >= 19 && Call(c.plan, b, c.arg, env).value.error[..19] == "Validation failed: "
  {
    SetterCall(si, c.plan, b, c.arg, env);
    StoredRepresentation(si, c.plan, c.arg, env);
    SetterTransition(si, c.plan, b.state);
    if Call(c.plan, b, c.arg, env).Some? && Accepted(c, env) {
      var o := Call(c.plan, b, c.arg, env).value;
      assert o.Done?;
      assert o.value.values == b.values[c.plan.index := Some(StoredEntry(c.plan, c.plan.fields[c.plan.index].store, c.arg, env).value.value)];
    }
  }

  /** Running a chain never panics and never gets stuck when the chain
      type-checks; a chain that returns a builder type-checks, and one that
      stops was stopped by a validated value setter rejecting its value. */
  lemma {:induction false} RunChain(si: StructInput, calls: seq<Invocation>, b: Builder, env: Env)
    requires WellFormed(si, calls)
    requires |b.state.slots| == NumFields(si) && |b.state.markers| == 2 && |b.values| == NumFields(si)
    ensures Typed(calls, b.state).Some? ==> RunSetters(calls, b, env).Some?
    ensures RunSetters(calls, b, env).Some? ==> !RunSetters(calls, b, env).value.Panicked?
    ensures RunSetters(calls, b, env).Some? && RunSetters(calls, b, env).value.Done? ==> Typed(calls, b.state).Some?
    ensures RunSetters(calls, b, env).Some? && RunSetters(calls, b, env).value.Failed? ==> exists i ::
      && 0 <= i < |calls| && calls[i].plan.kind == ValueSetter
      && calls[i].plan.index < NumFields(si) && AllFields(si)[calls[i].plan.index].attrs.validator.Some?
      && |RunSetters(calls, b, env).value.error| >= 19 && RunSetters(calls, b, env).value.error[..19] == "Validation failed: "
  {
    if calls != [] {
      var c := calls[0];
      var rest := calls[1..];
      CallStep(si, c, b, env);
      SetterTransition(si, c.plan, b.state);
      if Call(c.plan, b, c.arg, env).Some? && Accepted(c, env) {
        var b1 := Call(c.plan, b, c.arg, env).value.value;
        assert WellFormed(si, rest) by {
          forall i | 0 <= i < |rest| ensures rest[i].plan in Plans(si) && ArgFits(rest[i].plan.kind, rest[i].arg) {
            assert rest[i] == calls[i + 1];
          }
        }
        RunChain(si, rest, b1, env);
        assert Typed(calls, b.state) == Typed(rest, b1.state);
        if RunSetters(rest, b1, env).Some? && RunSetters(rest, b1, env).value.Failed? {
          var i :| 0 <= i < |rest| && rest[i].plan.kind == ValueSetter
            && rest[i].plan.index < NumFields(si) && AllFields(si)[rest[i].plan.index].attrs.validator.Some?
            && |RunSetters(rest, b1, env).value.error| >= 19 && RunSetters(rest, b1, env).value.error[..19] == "Validation failed: ";
          assert calls[i + 1] == rest[i];
        }
      }
    }
  }

  /** A chain that type-checks returns a builder exactly when every setter
      accepts its argument. That builder has the inferred type, holds what
      each call stored in its field and leaves the fields nobody set as they
      were. */
  lemma {:induction false} RunChainDone(si: StructInput, calls: seq<Invocation>, b: Builder, env: Env)
    requires WellFormed(si, calls)
    requires |b.state.slots| == NumFields(si) && |b.state.markers| == 2 && |b.values| == NumFields(si)
    requires Typed(calls, b.state).Some?
    ensures RunSetters(calls, b, env).Some?
    ensures RunSetters(calls, b, env).value.Done? <==> forall i :: 0 <= i < |calls| ==> Accepted(calls[i], env)
    ensures RunSetters(calls, b, env).value.Done? ==>
      var b' := RunSetters(calls, b, env).value.value;
      && b'.state == Typed(calls, b.state).value
      && |b'.values| == NumFields(si)
      && (forall k :: 0 <= k < NumFields(si) && !Called(calls, k) ==> b'.values[k] == b.values[k])
      && (forall i :: 0 <= i < |calls| ==> calls[i].plan.index < NumFields(si) && StoredBy(calls[i], b'.values[calls[i].plan.index], env))
  {
    RunChain(si, calls, b, env);
    if calls != [] {
      var c := calls[0];
      var rest := calls[1..];
      var k0 := c.plan.index;
      CallStep(si, c, b, env);
      SetterTransition(si, c.plan, b.state);
      assert b.state.slots[k0] == Unit;
      AllAcceptedStep(calls, env);
      if Accepted(c, env) {
        var b1 := Call(c.plan, b, c.arg, env).value.value;
        WellFormedRest(si, calls);
        assert Typed(calls, b.state) == Typed(rest, b1.state);
        RunChainDone(si, rest, b1, env);
        TypedChain(si, rest, b1.state);
        assert RunSetters(calls, b, env) == RunSetters(rest, b1, env);
        if RunSetters(rest, b1, env).value.Done? {
          var b' := RunSetters(rest, b1, env).value.value;
          assert !Called(rest, k0);
          forall k | 0 <= k < NumFields(si) && !Called(calls, k) ensures b'.values[k] == b.values[k] {
            CalledStep(calls, k);
          }
          forall i | 0 <= i < |calls| ensures calls[i].plan.index < NumFields(si) && StoredBy(calls[i], b'.values[calls[i].plan.index], env) {
            if i > 0 {
              assert calls[i] == rest[i - 1];
            }
          }
        }
      }
    }
  }

  /** The variants a builder holds after `new()` and a chain of setters
      that returns it. A field some setter set holds a variant that
      setter.rs declares once the `future` feature is on. Every other field
      holds what `new()` put there, and the only variant setter.rs does not
      declare that can appear is `Setter::Default`, in an optional field
      with an early-bound value default that no setter touched. */
  lemma SessionVariants(si: StructInput, calls: seq<Invocation>, env: Env)
    requires BuilderInitArgs(si, env).Done?
    requires WellFormed(si, calls) && Typed(calls, NewState(si)).Some?
    requires RunSetters(calls, Builder(NewState(si), BuilderInitArgs(si, env).value), env).Some?
    requires RunSetters(calls, Builder(NewState(si), BuilderInitArgs(si, env).value), env).value.Done?
    ensures var b := RunSetters(calls, Builder(NewState(si), BuilderInitArgs(si, env).value), env).value.value;
      && |b.values| == NumFields(si)
      && (forall k :: 0 <= k < NumFields(si) && Called(calls, k) ==> b.values[k].Some? && Declared(b.values[k].value, true))
      && (forall k :: 0 <= k < NumFields(si) && b.values[k].Some? && !Declared(b.values[k].value, true) ==>
            && !Called(calls, k) && |si.requiredFields| <= k
            && b.values[k].value.Default?
            && !AllFields(si)[k].attrs.lateBoundDefault
            && AllFields(si)[k].attrs.default.Some? && AllFields(si)[k].attrs.default.value.kind == {VALUE})
  {
    var b0 := Builder(NewState(si), BuilderInitArgs(si, env).value);
    RunChainDone(si, calls, b0, env);
    var b := RunSetters(calls, b0, env).value.value;
    forall k | 0 <= k < NumFields(si) && Called(calls, k) ensures b.values[k].Some? && Declared(b.values[k].value, true) {
      var i :| 0 <= i < |calls| && calls[i].plan.index == k;
      assert StoredBy(calls[i], b.values[k], env);
    }
    forall k | 0 <= k < NumFields(si) && b.values[k].Some? && !Declared(b.values[k].value, true)
      ensures !Called(calls, k) && |si.requiredFields| <= k && b.values[k].value.Default?
      ensures !AllFields(si)[k].attrs.lateBoundDefault
      ensures AllFields(si)[k].attrs.default.Some? && AllFields(si)[k].attrs.default.value.kind == {VALUE}
    {
      assert b.values[k] == b0.values[k];
      InitUndeclared(si, env, k);
    }
  }

  lemma WellFormedRest(si: StructInput, calls: seq<Invocation>)
    requires calls != [] && WellFormed(si, calls)
    ensures WellFormed(si, calls[1..])
  {
    forall i | 0 <= i < |calls[1..]| ensures calls[1..][i].plan in Plans(si) && ArgFits(calls[1..][i].plan.kind, calls[1..][i].arg) {
      assert calls[1..][i] == calls[i + 1];
    }
  }

  lemma AllAcceptedStep(calls: seq<Invocation>, env: Env)
    requires calls != []
    ensures (forall i :: 0 <= i < |calls| ==> Accepted(calls[i], env)) <==>
      Accepted(calls[0], env) && forall i :: 0 <= i < |calls[1..]| ==> Accepted(calls[1..][i], env)
  {
    if Accepted(calls[0], env) && forall i :: 0 <= i < |calls[1..]| ==> Accepted(calls[1..][i], env) {
      forall i | 0 <= i < |calls| ensures Accepted(calls[i], env) {
        if i > 0 {
          assert calls[i] == calls[1..][i - 1];
        }
      }
    }
  }

  lemma SameCalled(calls1: seq<Invocation>, calls2: seq<Invocation>, k: nat)
    requires forall c :: c in calls1 <==> c in calls2
    ensures Called(calls1, k) <==> Called(calls2, k)
  {
    if Called(calls1, k) {
      var i :| 0 <= i < |calls1| && calls1[i].plan.index == k;
      assert calls1[i] in calls2;
    }
    if Called(calls2, k) {
      var j :| 0 <= j < |calls2| && calls2[j].plan.index == k;
      assert calls2[j] in calls1;
    }
  }

  /** Chains making the same calls give the builder the same type. */
  lemma SameCallsSameState(si: StructInput, calls1: seq<Invocation>, calls2: seq<Invocation>, s: State)
    requires |s.slots| == NumFields(si) && |s.markers| == 2
    requires forall c :: c in calls1 <==> c in calls2
    ensures StateAfter(si, s, calls1) == StateAfter(si, s, calls2)
  {
    forall k | 0 <= k < NumFields(si) ensures Called(calls1, k) <==> Called(calls2, k) {
      SameCalled(calls1, calls2, k);
    }
    if AnyAsync(calls1) {
      var i :| 0 <= i < |calls1| && calls1[i].plan.kind == AsyncSetter;
      assert calls1[i] in calls2;
    }
    if AnyAsync(calls2) {
      var j :| 0 <= j < |calls2| && calls2[j].plan.kind == AsyncSetter;
      assert calls2[j] in calls1;
    }
    if AnyValidatedProducer(si, calls1) {
      var i :| 0 <= i < |calls1| && calls1[i].plan.kind != ValueSetter
        && calls1[i].plan.index < NumFields(si) && AllFields(si)[calls1[i].plan.index].attrs.validator.Some?;
      assert calls1[i] in calls2;
    }
    if AnyValidatedProducer(si, calls2) {
      var j :| 0 <= j < |calls2| && calls2[j].plan.kind != ValueSetter
        && calls2[j].plan.index < NumFields(si) && AllFields(si)[calls2[j].plan.index].attrs.validator.Some?;
      assert calls2[j] in calls1;
    }
    assert StateAfter(si, s, calls1).slots == StateAfter(si, s, calls2).slots;
  }

  /** Field contents made by the same calls from the same start agree. */
  lemma SameCallsSameValues(si: StructInput, calls1: seq<Invocation>, calls2: seq<Invocation>,
                            base: seq<Option<ValueRepr>>, v1: seq<Option<ValueRepr>>, v2: seq<Option<ValueRepr>>, env: Env)
    requires |base| == NumFields(si) && |v1| == NumFields(si) && |v2| == NumFields(si)
    requires forall c :: c in calls1 <==> c in calls2
    requires forall k :: 0 <= k < NumFields(si) && !Called(calls1, k) ==> v1[k] == base[k]
    requires forall k :: 0 <= k < NumFields(si) && !Called(calls2, k) ==> v2[k] == base[k]
    requires forall i :: 0 <= i < |calls1| ==> calls1[i].plan.index < NumFields(si) && StoredBy(calls1[i], v1[calls1[i].plan.index], env)
    requires forall i :: 0 <= i < |calls2| ==> calls2[i].plan.index < NumFields(si) && StoredBy(calls2[i], v2[calls2[i].plan.index], env)
    ensures v1 == v2
  {
    forall k | 0 <= k < NumFields(si) ensures v1[k] == v2[k] {
      SameCalled(calls1, calls2, k);
      if Called(calls1, k) {
        var i :| 0 <= i < |calls1| && calls1[i].plan.index == k;
        assert calls1[i] in calls2;
        var j :| 0 <= j < |calls2| && calls2[j] == calls1[i];
        assert StoredBy(calls1[i], v1[k], env);
        assert StoredBy(calls2[j], v2[k], env);
      }
    }
  }

  /** The order of the calls does not matter: two chains that type-check and
      make the same calls both return a builder or both stop, and the
      builders they return are equal. */
  lemma SameCallsSameBuilder(si: StructInput, calls1: seq<Invocation>, calls2: seq<Invocation>, b: Builder, env: Env)
    requires WellFormed(si, calls1) && WellFormed(si, calls2)
    requires |b.state.slots| == NumFields(si) && |b.state.markers| == 2 && |b.values| == NumFields(si)
    requires Typed(calls1, b.state).Some? && Typed(calls2, b.state).Some?
    requires forall c :: c in calls1 <==> c in calls2
    ensures RunSetters(calls1, b, env).Some? && RunSetters(calls2, b, env).Some?
    ensures RunSetters(calls1, b, env).value.Done? <==> RunSetters(calls2, b, env).value.Done?
    ensures RunSetters(calls1, b, env).value.Done? ==> RunSetters(calls1, b, env) == RunSetters(calls2, b, env)
  {
    RunChainDone(si, calls1, b, env);
    RunChainDone(si, calls2, b, env);
    if forall i :: 0 <= i < |calls1| ==> Accepted(calls1[i], env) {
      forall j | 0 <= j < |calls2| ensures Accepted(calls2[j], env) {
        assert calls2[j] in calls1;
      }
    }
    if forall j :: 0 <= j < |calls2| ==> Accepted(calls2[j], env) {
      forall i | 0 <= i < |calls1| ensures Accepted(calls1[i], env) {
        assert calls1[i] in calls2;
      }
    }
    if RunSetters(calls1, b, env).value.Done? {
      TypedChain(si, calls1, b.state);
      TypedChain(si, calls2, b.state);
      SameCallsSameState(si, calls1, calls2, b.state);
      var b1 := RunSetters(calls1, b, env).value.value;
      var b2 := RunSetters(calls2, b, env).value.value;
      SameCallsSameValues(si, calls1, calls2, b.values, b1.values, b2.values, env);
      assert b1.values == b2.values;
    }
  }

  // ---- `build` after a chain of setters from `new()` ----

  /** Every required field has been set. */
  predicate CoversRequired(si: StructInput, calls: seq<Invocation>)
  {
    forall k :: 0 <= k < |si.requiredFields| ==> Called(calls, k)
  }

  /** After a chain from `new()` that type-checks, the synchronous `build`
      can be called exactly when every required field is set and no async
      setter was used, the asynchronous one exactly when every required
      field is set and some async setter was used. */
  lemma SessionBuildsApply(si: StructInput, calls: seq<Invocation>)
    requires WellFormed(si, calls)
    requires Typed(calls, NewState(si)).Some?
    ensures var s := Typed(calls, NewState(si)).value;
      && |s.slots| == NumFields(si) && |s.markers| == 2
      && (Applies(BuilderImpls.BuildHeader(si, Unit), s) <==> CoversRequired(si, calls) && !AnyAsync(calls))
      && (Applies(BuilderImpls.BuildHeader(si, AsyncBuilderMarker), s) <==> CoversRequired(si, calls) && AnyAsync(calls))
  {
    TypedChain(si, calls, NewState(si));
    var s := Typed(calls, NewState(si)).value;
    BuilderImpls.BuildApplies(si, s, Unit);
    BuilderImpls.BuildApplies(si, s, AsyncBuilderMarker);
    assert BuilderImpls.RequiredSet(si, s) <==> CoversRequired(si, calls) by {
      forall k | 0 <= k < |si.requiredFields| ensures s.slots[k] == Ty(si.requiredFields[k].ty) <==> Called(calls, k) {
        assert AllFields(si)[k] == si.requiredFields[k];
      }
    }
  }

  /** What a setter call means for its field in `build`: the (converted)
      value, or the producer's output, passed through the field's validator
      when it has one. */
  function Intended(f: Field, c: Invocation, env: Env): (o: Outcome<Value>)
    ensures !o.Panicked?
    ensures o.Failed? ==> f.attrs.validator.Some?
    ensures f.attrs.validator.None? ==> o == Done(if c.arg.ProducerArg? then c.arg.p.output
                                                else if c.plan.useInto then env.convert(f.ty, c.arg.v) else c.arg.v)
    ensures f.attrs.validator.Some? ==> (o.Done? <==> env.validate(f.attrs.validator.value,
      if c.arg.ProducerArg? then c.arg.p.output else if c.plan.useInto then env.convert(f.ty, c.arg.v) else c.arg.v).Ok?)
  {
    match c.arg
    case ValueArg(v) =>
      var x := if c.plan.useInto then env.convert(f.ty, v) else v;
      if f.attrs.validator.None? then Done(x) else BuilderImpls.FromResult(env.validate(f.attrs.validator.value, x))
    case ProducerArg(p) =>
      if f.attrs.validator.None? then Done(p.output) else BuilderImpls.FromResult(env.validate(f.attrs.validator.value, p.output))
  }

  /** What an optional field nobody set means in `build`: its default,
      evaluated (a value default) or called (a producer default). */
  function DefaultOf(f: Field, env: Env): Outcome<Value>
  {
    match f.attrs.default
    case None => Panicked("internal error: entered unreachable code: required field not set")
    case Some(rule) =>
      Done(if !f.attrs.lateBoundDefault && rule.kind == {LAZY} then env.call(rule.expr) else env.eval(rule.expr))
  }

  /** The intended resolution of field `k` after the chain. */
  ghost function Expected(si: StructInput, calls: seq<Invocation>, k: nat, env: Env): Outcome<Value>
    requires k < NumFields(si)
  {
    if Called(calls, k) then
      var i :| 0 <= i < |calls| && calls[i].plan.index == k;
      Intended(AllFields(si)[k], calls[i], env)
    else DefaultOf(AllFields(si)[k], env)
  }

  /** With the corrected `new()`, each optional field starts with its
      default: the witness of a late-bound default, the evaluated value of
      an early-bound value default, the producer of a producer default. */
  lemma CorrectedStart(si: StructInput, env: Env, k: nat)
    requires CorrectedInitArgs(si, env).Done?
    requires |si.requiredFields| <= k < NumFields(si)
    ensures var f := AllFields(si)[k];
      && f.attrs.default.Some?
      && |CorrectedInitArgs(si, env).value| == NumFields(si)
      && CorrectedInitArgs(si, env).value[k] ==
           (if f.attrs.lateBoundDefault then Some(LateBoundDefault(Refl.Refl(f.ty)))
            else if f.attrs.default.value.kind == {VALUE} then Some(ValueRepr.Default(env.eval(f.attrs.default.value.expr), Refl.Refl(f.ty)))
            else Some(Lazy(Producer(env.call(f.attrs.default.value.expr)))))
      && (!f.attrs.lateBoundDefault ==> f.attrs.default.value.kind == {VALUE} || f.attrs.default.value.kind == {LAZY})
  {
    var outs := CorrectedInitOutcomes(si, env);
    assert outs[k].Done?;
    assert outs[k] == CorrectedOptionalInit(si.optionalFields[k - |si.requiredFields|], env);
    assert AllFields(si)[k] == si.optionalFields[k - |si.requiredFields|];
  }

  /** An optional field nobody set resolves to its default in the corrected
      `build`, validated or not. */
  lemma CorrectedDefaultResolves(si: StructInput, env: Env, k: nat)
    requires CorrectedInitArgs(si, env).Done?
    requires |si.requiredFields| <= k < NumFields(si)
    ensures |CorrectedInitArgs(si, env).value| == NumFields(si)
    ensures BuilderImpls.SyncField(BuilderImpls.Corrected, si, k, CorrectedInitArgs(si, env).value[k], env) == DefaultOf(AllFields(si)[k], env)
  {
    CorrectedStart(si, env, k);
    var f := AllFields(si)[k];
    var x := CorrectedInitArgs(si, env).value[k];
    var cat := BuilderImpls.CategoryOf(si, k);
    assert BuilderImpls.CorrectedResolveLet(BuilderImpls.ValidatedSync, cat, x, env) == DefaultGenerics.Resolve(cat, x, env);
    if f.attrs.lateBoundDefault {
      assert cat == DefaultGenerics.LateBound(f.attrs.default.value.expr);
    } else if f.attrs.default.value.kind == {VALUE} {
      assert cat == DefaultGenerics.EarlyBound(f.attrs.default.value.expr);
    }
  }

  /** A field some call set resolves in the corrected `build` to what the
      call means. */
  lemma CorrectedSetResolves(si: StructInput, c: Invocation, x: Option<ValueRepr>, env: Env)
    requires c.plan in Plans(si) && ArgFits(c.plan.kind, c.arg) && c.plan.kind != AsyncSetter
    requires StoredBy(c, x, env)
    ensures c.plan.index < NumFields(si)
    ensures BuilderImpls.SyncField(BuilderImpls.Corrected, si, c.plan.index, x, env) == Intended(AllFields(si)[c.plan.index], c, env)
  {
    PlansCover(si);
    assert PlanFor(si, c.plan);
    StoredRepresentation(si, c.plan, c.arg, env);
  }

  /** The builder a chain from the corrected `new()` returns holds, in each
      field, what resolves in the corrected `build` to the field's intended
      value: the meaning of the call that set it, or its default. */
  lemma CorrectedFieldResolves(si: StructInput, calls: seq<Invocation>, env: Env, b: Builder, k: nat)
    requires CorrectedInitArgs(si, env).Done?
    requires WellFormed(si, calls) && !AnyAsync(calls)
    requires Typed(calls, NewState(si)).Some?
    requires RunSetters(calls, Builder(NewState(si), CorrectedInitArgs(si, env).value), env) == Some(Done(b))
    requires k < NumFields(si) && (|si.requiredFields| <= k || Called(calls, k))
    ensures |b.values| == NumFields(si)
    ensures BuilderImpls.SyncField(BuilderImpls.Corrected, si, k, b.values[k], env) == Expected(si, calls, k, env)
  {
    var b0 := Builder(NewState(si), CorrectedInitArgs(si, env).value);
    CorrectedInitArgsShape(si, env);
    RunChainDone(si, calls, b0, env);
    TypedChain(si, calls, NewState(si));
    if Called(calls, k) {
      var i :| 0 <= i < |calls| && calls[i].plan.index == k && Expected(si, calls, k, env) == Intended(AllFields(si)[k], calls[i], env);
      assert calls[i].plan.kind != AsyncSetter;
      CorrectedSetResolves(si, calls[i], b.values[k], env);
    } else {
      CorrectedDefaultResolves(si, env, k);
    }
  }

  /** Every field of that builder resolves to its intended value, which is
      never a panic. */
  lemma CorrectedFieldsResolve(si: StructInput, calls: seq<Invocation>, env: Env, b: Builder)
    requires CorrectedInitArgs(si, env).Done?
    requires WellFormed(si, calls) && !AnyAsync(calls)
    requires Typed(calls, NewState(si)).Some? && CoversRequired(si, calls)
    requires RunSetters(calls, Builder(NewState(si), CorrectedInitArgs(si, env).value), env) == Some(Done(b))
    ensures |b.values| == NumFields(si)
    ensures forall k :: 0 <= k < NumFields(si) ==>
      BuilderImpls.SyncField(BuilderImpls.Corrected, si, k, b.values[k], env) == Expected(si, calls, k, env)
      && !Expected(si, calls, k, env).Panicked?
  {
    forall k | 0 <= k < NumFields(si)
      ensures |b.values| == NumFields(si)
      ensures BuilderImpls.SyncField(BuilderImpls.Corrected, si, k, b.values[k], env) == Expected(si, calls, k, env)
      ensures !Expected(si, calls, k, env).Panicked?
    {
      CorrectedFieldResolves(si, calls, env, b, k);
      if !Called(calls, k) {
        CorrectedStart(si, env, k);
      }
    }
    CorrectedInitArgsShape(si, env);
    RunChainDone(si, calls, Builder(NewState(si), CorrectedInitArgs(si, env).value), env);
  }

  /** The corrected synchronous `build` on the builder such a chain
      returns: callable, never panicking, and yielding exactly the intended
      values, or a validator's error. */
  lemma CorrectedBuild(si: StructInput, calls: seq<Invocation>, env: Env, b: Builder)
    requires CorrectedInitArgs(si, env).Done?
    requires WellFormed(si, calls) && !AnyAsync(calls)
    requires Typed(calls, NewState(si)).Some? && CoversRequired(si, calls)
    requires RunSetters(calls, Builder(NewState(si), CorrectedInitArgs(si, env).value), env) == Some(Done(b))
    ensures |b.values| == NumFields(si)
    ensures BuilderImpls.Runnable(si, BuilderImpls.SyncBuildPlan(si), b)
    ensures var r := BuilderImpls.RunBuild(BuilderImpls.Corrected, si, BuilderImpls.SyncBuildPlan(si), b, env);
      && r.Some?
      && !r.value.Panicked?
      && (r.value.Done? <==> forall k :: 0 <= k < NumFields(si) ==> Expected(si, calls, k, env).Done?)
      && (r.value.Done? ==>
            && |r.value.value| == NumFields(si)
            && forall k :: 0 <= k < NumFields(si) ==> Expected(si, calls, k, env) == Done(r.value.value[k]))
      && (r.value.Failed? ==> exists k :: 0 <= k < NumFields(si) && Expected(si, calls, k, env) == Failed(r.value.error))
  {
    var b0 := Builder(NewState(si), CorrectedInitArgs(si, env).value);
    CorrectedInitArgsShape(si, env);
    RunChainDone(si, calls, b0, env);
    SessionBuildsApply(si, calls);
    var expected := seq(NumFields(si), k requires 0 <= k < NumFields(si) => Expected(si, calls, k, env));
    CorrectedFieldsResolve(si, calls, env, b);
    BuilderImpls.SyncBuildMeets(BuilderImpls.Corrected, si, b, env, expected);
  }

  /** The intended behaviour end to end: after a chain of synchronous
      setters from the corrected `new()` that type-checks and sets every
      required field, the chain returns a builder unless a validated value
      setter rejects its value, and then the corrected synchronous `build`
      can be called and never panics. It returns the record exactly when
      every field's intended value is available, each record field being
      the meaning of the call that set it or its default, and otherwise the
      error of a validator. */
  lemma CorrectedSession(si: StructInput, calls: seq<Invocation>, env: Env)
    requires CorrectedInitArgs(si, env).Done?
    requires WellFormed(si, calls) && !AnyAsync(calls)
    requires Typed(calls, NewState(si)).Some? && CoversRequired(si, calls)
    ensures var b0 := Builder(NewState(si), CorrectedInitArgs(si, env).value);
      && RunSetters(calls, b0, env).Some?
      && !RunSetters(calls, b0, env).value.Panicked?
      && (RunSetters(calls, b0, env).value.Done? <==> forall i :: 0 <= i < |calls| ==> Accepted(calls[i], env))
    ensures var b0 := Builder(NewState(si), CorrectedInitArgs(si, env).value);
      RunSetters(calls, b0, env).Some? && RunSetters(calls, b0, env).value.Done? ==>
      var b := RunSetters(calls, b0, env).value.value;
      && BuilderImpls.Runnable(si, BuilderImpls.SyncBuildPlan(si), b)
      && var r := BuilderImpls.RunBuild(BuilderImpls.Corrected, si, BuilderImpls.SyncBuildPlan(si), b, env);
      && r.Some?
      && !r.value.Panicked?
      && (r.value.Done? <==> forall k :: 0 <= k < NumFields(si) ==> Expected(si, calls, k, env).Done?)
      && (r.value.Done? ==>
            && |r.value.value| == NumFields(si)
            && forall k :: 0 <= k < NumFields(si) ==> Expected(si, calls, k, env) == Done(r.value.value[k]))
  {
    var b0 := Builder(NewState(si), CorrectedInitArgs(si, env).value);
    CorrectedInitArgsShape(si, env);
    RunChain(si, calls, b0, env);
    RunChainDone(si, calls, b0, env);
    if RunSetters(calls, b0, env).value.Done? {
      CorrectedBuild(si, calls, env, RunSetters(calls, b0, env).value.value);
    }
  }

  // ---- the two defects, on one-field structs ----

  /** A public field `x: i32` with `#[default(5)]`, early-bound or
      late-bound (`#[hidden]` makes a default late-bound). */
  function OneDefaulted(vis: FieldVisibility, lateBound: bool): StructInput
  {
    var attrs := FieldAttributes(Some(DefaultRule("5", {VALUE})), false, None, [], {VALUE}, vis, lateBound, [], []);
    StructInput("pub", "Point", Generics([], None), [], [], [Field("pub", "x", "i32", attrs)])
  }

  /** The record of a one-field struct, from the resolution of its field. */
  function Single(o: Outcome<Value>): Outcome<seq<Value>>
  {
    if o.Done? then Done([o.value]) else Stop(o)
  }

  /** On these structs the synchronous `build` has no `let`s: it resolves
      the one field in the record literal. */
  lemma OneFieldBuild(vis: FieldVisibility, lateBound: bool, b: Builder, env: Env)
    requires |b.values| == 1 && b.state == NewState(OneDefaulted(vis, lateBound))
    ensures BuilderImpls.Runnable(OneDefaulted(vis, lateBound), BuilderImpls.SyncBuildPlan(OneDefaulted(vis, lateBound)), b)
    ensures BuilderImpls.RunBuild(BuilderImpls.AsWritten, OneDefaulted(vis, lateBound), BuilderImpls.SyncBuildPlan(OneDefaulted(vis, lateBound)), b, env) ==
      Some(Single(BuilderImpls.UnwrapArg(b.values[0])))
    ensures BuilderImpls.RunBuild(BuilderImpls.Corrected, OneDefaulted(vis, lateBound), BuilderImpls.SyncBuildPlan(OneDefaulted(vis, lateBound)), b, env) ==
      Some(Single(BuilderImpls.CorrectedUnwrapArg(BuilderImpls.CategoryOf(OneDefaulted(vis, lateBound), 0), b.values[0], env)))
  {
    var si := OneDefaulted(vis, lateBound);
    var plan := BuilderImpls.SyncBuildPlan(si);
    assert !BuilderImpls.NeedsValidation(AllFields(si)[0]);
    assert BuilderImpls.ValidatedPrefix(si, 1) == [];
    BuilderImpls.SyncBuildPlanRunnable(si, b);
    BuilderImpls.BuildApplies(si, b.state, Unit);
    assert Applies(plan.header, b.state);
    assert plan.initArgs[0].Unwrap?;
    forall sem | sem == BuilderImpls.AsWritten || sem == BuilderImpls.Corrected
      ensures BuilderImpls.RunBuild(sem, si, plan, b, env) ==
        Some(Single(BuilderImpls.UnwrapWith(sem, si, 0, b.values[0], env)))
    {
      var outs := BuilderImpls.LetOutcomes(sem, si, plan, b, env);
      assert outs == [];
      assert Collect(outs) == Done([]);
      var entries := BuilderImpls.EntryOutcomes(sem, si, plan, b, [], env);
      var o := BuilderImpls.UnwrapWith(sem, si, 0, b.values[0], env);
      assert entries == [o];
      if o.Done? {
        assert Collect(entries).value == [o.value];
      }
    }
  }

  /** `new()` followed directly by `build()` on a struct whose one field
      has an early-bound value default: `new()` stores the default, the
      synchronous `build` can be called, and as written it reaches
      `unreachable!()`, while the intended resolution yields the default. */
  lemma EarlyDefaultBuild(env: Env)
    ensures BuilderInitArgs(OneDefaulted(Public, false), env) == Done([Some(ValueRepr.Default(env.eval("5"), Refl.Refl("i32")))])
    ensures var b := Builder(NewState(OneDefaulted(Public, false)), [Some(ValueRepr.Default(env.eval("5"), Refl.Refl("i32")))]);
      && BuilderImpls.Runnable(OneDefaulted(Public, false), BuilderImpls.SyncBuildPlan(OneDefaulted(Public, false)), b)
      && BuilderImpls.RunBuild(BuilderImpls.AsWritten, OneDefaulted(Public, false), BuilderImpls.SyncBuildPlan(OneDefaulted(Public, false)), b, env)
           == Some(Panicked(BuilderImpls.Unreachable))
      && BuilderImpls.RunBuild(BuilderImpls.Corrected, OneDefaulted(Public, false), BuilderImpls.SyncBuildPlan(OneDefaulted(Public, false)), b, env)
           == Some(Done([env.eval("5")]))
  {
    var si := OneDefaulted(Public, false);
    var x := Some(ValueRepr.Default(env.eval("5"), Refl.Refl("i32")));
    var b := Builder(NewState(si), [x]);
    assert InitOutcomes(si, env) == [Done(x)];
    assert BuilderInitArgs(si, env).value == [x];
    OneFieldBuild(Public, false, b, env);
  }

  /** `new()` on a struct whose one field is `#[hidden]` with a value
      default: as written the field starts empty, corrected it starts with
      the witness of its type. */
  lemma HiddenDefaultStart(env: Env)
    ensures BuilderInitArgs(OneDefaulted(Hidden, true), env) == Done([None])
    ensures CorrectedInitArgs(OneDefaulted(Hidden, true), env) == Done([Some(LateBoundDefault(Refl.Refl("i32")))])
  {
    var si := OneDefaulted(Hidden, true);
    var x := Some(LateBoundDefault(Refl.Refl("i32")));
    assert InitOutcomes(si, env) == [Done(None)];
    assert CorrectedInitOutcomes(si, env) == [Done(x)];
    assert BuilderInitArgs(si, env).value == [None];
    assert CorrectedInitArgs(si, env).value == [x];
  }

  /** `build()` straight after the `new()` as written on that struct
      panics on `unwrap`. */
  lemma HiddenDefaultBuild(env: Env)
    ensures var b := Builder(NewState(OneDefaulted(Hidden, true)), [None]);
      && BuilderImpls.Runnable(OneDefaulted(Hidden, true), BuilderImpls.SyncBuildPlan(OneDefaulted(Hidden, true)), b)
      && BuilderImpls.RunBuild(BuilderImpls.AsWritten, OneDefaulted(Hidden, true), BuilderImpls.SyncBuildPlan(OneDefaulted(Hidden, true)), b, env)
           == Some(Panicked(BuilderImpls.UnwrapNone))
  {
    OneFieldBuild(Hidden, true, Builder(NewState(OneDefaulted(Hidden, true)), [None]), env);
  }

  /** From the corrected start, the corrected `build` yields the default. */
  lemma CorrectedHiddenDefaultBuild(env: Env)
    ensures var b := Builder(NewState(OneDefaulted(Hidden, true)), [Some(LateBoundDefault(Refl.Refl("i32")))]);
      && BuilderImpls.Runnable(OneDefaulted(Hidden, true), BuilderImpls.SyncBuildPlan(OneDefaulted(Hidden, true)), b)
      && BuilderImpls.RunBuild(BuilderImpls.Corrected, OneDefaulted(Hidden, true), BuilderImpls.SyncBuildPlan(OneDefaulted(Hidden, true)), b, env)
           == Some(Done([env.eval("5")]))
  {
    var si := OneDefaulted(Hidden, true);
    var x := Some(LateBoundDefault(Refl.Refl("i32")));
    OneFieldBuild(Hidden, true, Builder(NewState(si), [x]), env);
    assert BuilderImpls.CategoryOf(si, 0) == DefaultGenerics.LateBound("5");
    assert BuilderImpls.CorrectedUnwrapArg(BuilderImpls.CategoryOf(si, 0), x, env) == Done(env.eval("5"));
  }
}
