/** `build` of the earlier generator (src/builder/builder_impl.rs): declared
    on the builder whose required slots hold their field types, with the
    optional slots free; it unwraps every field into the record. */
module LegacyBuilderImpls {
  import opened Wrappers
  import opened Seqs
  import opened TypeState
  import StructInputs
  import LegacyFields
  import LegacyStructInputs
  import LegacyStructImpls
  import LegacyBuilders

  /** `optional_generics`: `TyBuilderPattern{r+1}..{r+o}`, the variables
      of the optional slots. */
  function OptionalGenerics(si: LegacyStructInputs.StructInput): (g: seq<GenName>)
    ensures |g| == |si.optionalFields|
    ensures g == LegacyStructInputs.AllGenerics(si)[|si.requiredFields|..]
  {
    LegacyBuilders.OptionalGenerics(LegacyBuilders.TyBuilderPatternVars, |si.requiredFields|, |si.optionalFields|)
  }

  function RequiredTypes(si: LegacyStructInputs.StructInput): seq<string>
  {
    Map(si.requiredFields, (f: LegacyFields.Field) => f.ty)
  }

  /** `satified_generics`: the required field types, then the optional slot
      variables. */
  function SatisfiedGenerics(si: LegacyStructInputs.StructInput): (r: seq<Pat>)
    ensures |r| == LegacyStructInputs.NumFields(si)
    ensures forall k :: 0 <= k < |si.requiredFields| ==> r[k] == Lit(Ty(si.requiredFields[k].ty))
    ensures forall k :: |si.requiredFields| <= k < |r| ==> r[k] == Var(TyBuilderPattern(k + 1))
  {
    LegacyBuilders.SatisfiedGenerics(LegacyBuilders.TyBuilderPatternVars, RequiredTypes(si), |si.optionalFields|)
  }

  /** `build` can be called exactly on builders whose required slots hold
      their field types; the optional slots are free, and the impl declares
      exactly their variables. */
  lemma BuildApplies(si: LegacyStructInputs.StructInput, s: State)
    requires |s.slots| == LegacyStructInputs.NumFields(si)
    ensures Applies(Header(SatisfiedGenerics(si), []), s) <==>
      forall k :: 0 <= k < |si.requiredFields| ==> s.slots[k] == Ty(si.requiredFields[k].ty)
    ensures forall n :: n in OptionalGenerics(si) <==> Var(n) in SatisfiedGenerics(si)
  {
    LegacyBuilders.BuildApplies(LegacyBuilders.TyBuilderPatternVars, RequiredTypes(si), |si.optionalFields|, s);
    assert Flat(Header(SatisfiedGenerics(si), [])) == SatisfiedGenerics(si);
  }

  /** A whole session on a struct whose optional fields carry defaults, as
      every parsed struct's do (`LegacyStructInputs.ParseSorted`): `new()`,
      setter calls, `build`. The chain type-checks exactly when it sets
      distinct fields, and `build` then applies exactly when every required
      field was set. When every validator accepts, `build` never panics and
      returns the value given to each field that was set and the evaluated
      default of each optional field that was not. */
  lemma Session(si: LegacyStructInputs.StructInput, calls: seq<LegacyBuilders.Invocation>, env: LegacyBuilders.Env)
    requires forall k :: 0 <= k < |si.optionalFields| ==> si.optionalFields[k].attrs.default.Some?
    requires LegacyBuilders.FromPlans(LegacyBuilders.TyBuilderPatternVars, LegacyStructInputs.Slots(si), false, calls)
    ensures LegacyBuilders.Typed(calls, LegacyStructImpls.New(si, env).state).Some? <==> LegacyBuilders.Distinct(calls)
    ensures LegacyBuilders.Distinct(calls) ==>
      (Applies(Header(SatisfiedGenerics(si), []), LegacyBuilders.Typed(calls, LegacyStructImpls.New(si, env).state).value)
       <==> forall k :: 0 <= k < |si.requiredFields| ==> LegacyBuilders.Called(calls, k))
    ensures LegacyBuilders.Distinct(calls) ==>
      LegacyBuilders.RunSetters(calls, LegacyStructImpls.New(si, env), env).Some?
    ensures LegacyBuilders.Distinct(calls) ==>
      (LegacyBuilders.RunSetters(calls, LegacyStructImpls.New(si, env), env).value.Returned? <==> LegacyBuilders.AllAccepted(calls, env))
    ensures (LegacyBuilders.Distinct(calls) && LegacyBuilders.AllAccepted(calls, env)
      && forall k :: 0 <= k < |si.requiredFields| ==> LegacyBuilders.Called(calls, k)) ==>
        var values := LegacyBuilders.RunSetters(calls, LegacyStructImpls.New(si, env), env).value.b.values;
        && LegacyBuilders.Build(values).Done?
        && |LegacyBuilders.Build(values).value| == LegacyStructInputs.NumFields(si)
        && forall k :: 0 <= k < LegacyStructInputs.NumFields(si) ==>
          Some(LegacyBuilders.Build(values).value[k]) ==
            if LegacyBuilders.Called(calls, k) then LegacyBuilders.ValueFor(calls, k, env)
            else Some(env.eval(si.optionalFields[k - |si.requiredFields|].attrs.default.value))
  {
    SessionTyping(si, calls, env);
    SessionBuild(si, calls, env);
  }

  /** The typing half of `Session`. */
  lemma SessionTyping(si: LegacyStructInputs.StructInput, calls: seq<LegacyBuilders.Invocation>, env: LegacyBuilders.Env)
    requires forall k :: 0 <= k < |si.optionalFields| ==> si.optionalFields[k].attrs.default.Some?
    requires LegacyBuilders.FromPlans(LegacyBuilders.TyBuilderPatternVars, LegacyStructInputs.Slots(si), false, calls)
    ensures LegacyBuilders.Typed(calls, LegacyStructImpls.New(si, env).state).Some? <==> LegacyBuilders.Distinct(calls)
    ensures LegacyBuilders.Distinct(calls) ==>
      (Applies(Header(SatisfiedGenerics(si), []), LegacyBuilders.Typed(calls, LegacyStructImpls.New(si, env).state).value)
       <==> forall k :: 0 <= k < |si.requiredFields| ==> LegacyBuilders.Called(calls, k))
    ensures LegacyBuilders.Distinct(calls) ==>
      LegacyBuilders.RunSetters(calls, LegacyStructImpls.New(si, env), env).Some?
    ensures LegacyBuilders.Distinct(calls) ==>
      (LegacyBuilders.RunSetters(calls, LegacyStructImpls.New(si, env), env).value.Returned? <==> LegacyBuilders.AllAccepted(calls, env))
  {
    SessionSetup(si, env);
    LegacyBuilders.Session(LegacyBuilders.TyBuilderPatternVars, LegacyStructInputs.Slots(si), false,
      |si.requiredFields|, LegacyStructImpls.Defaults(si), calls, env);
  }

  /** The `build` half of `Session`. */
  lemma SessionBuild(si: LegacyStructInputs.StructInput, calls: seq<LegacyBuilders.Invocation>, env: LegacyBuilders.Env)
    requires forall k :: 0 <= k < |si.optionalFields| ==> si.optionalFields[k].attrs.default.Some?
    requires LegacyBuilders.FromPlans(LegacyBuilders.TyBuilderPatternVars, LegacyStructInputs.Slots(si), false, calls)
    ensures (LegacyBuilders.Distinct(calls) && LegacyBuilders.AllAccepted(calls, env)
      && forall k :: 0 <= k < |si.requiredFields| ==> LegacyBuilders.Called(calls, k)) ==>
        && LegacyBuilders.RunSetters(calls, LegacyStructImpls.New(si, env), env).Some?
        && LegacyBuilders.RunSetters(calls, LegacyStructImpls.New(si, env), env).value.Returned?
        && var values := LegacyBuilders.RunSetters(calls, LegacyStructImpls.New(si, env), env).value.b.values;
        && LegacyBuilders.Build(values).Done?
        && |LegacyBuilders.Build(values).value| == LegacyStructInputs.NumFields(si)
        && forall k :: 0 <= k < LegacyStructInputs.NumFields(si) ==>
          Some(LegacyBuilders.Build(values).value[k]) ==
            if LegacyBuilders.Called(calls, k) then LegacyBuilders.ValueFor(calls, k, env)
            else Some(env.eval(si.optionalFields[k - |si.requiredFields|].attrs.default.value))
  {
    var r := |si.requiredFields|;
    var defaults := LegacyStructImpls.Defaults(si);
    var b0 := LegacyStructImpls.New(si, env);
    SessionSetup(si, env);
    LegacyBuilders.Session(LegacyBuilders.TyBuilderPatternVars, LegacyStructInputs.Slots(si), false, r, defaults, calls, env);
    if LegacyBuilders.Distinct(calls) && LegacyBuilders.AllAccepted(calls, env)
      && forall k :: 0 <= k < r ==> LegacyBuilders.Called(calls, k)
    {
      var values := LegacyBuilders.RunSetters(calls, b0, env).value.b.values;
      var built := LegacyBuilders.Build(values).value;
      forall k | 0 <= k < LegacyStructInputs.NumFields(si)
        ensures Some(built[k]) ==
          if LegacyBuilders.Called(calls, k) then LegacyBuilders.ValueFor(calls, k, env)
          else Some(env.eval(si.optionalFields[k - r].attrs.default.value))
      {
        if !LegacyBuilders.Called(calls, k) {
          assert Some(defaults[k - r]) == si.optionalFields[k - r].attrs.default;
        }
      }
    }
  }

  /** The parsed struct's `new()` and `build` header are the type-state
      builder's, with the optional fields' defaults. */
  lemma SessionSetup(si: LegacyStructInputs.StructInput, env: LegacyBuilders.Env)
    requires forall k :: 0 <= k < |si.optionalFields| ==> si.optionalFields[k].attrs.default.Some?
    ensures LegacyStructImpls.New(si, env) == LegacyBuilders.NewBuilder(|si.requiredFields|, LegacyStructImpls.Defaults(si), env)
    ensures LegacyBuilders.BuildHeaderOf(LegacyBuilders.TyBuilderPatternVars, LegacyStructInputs.Slots(si), |si.requiredFields|)
      == Header(SatisfiedGenerics(si), [])
  {
    var fs := LegacyStructInputs.Slots(si);
    var r := |si.requiredFields|;
    LegacyStructImpls.NewIsStart(si, env);
    assert Map(fs[..r], (f: LegacyBuilders.SlotField) => f.ty) == RequiredTypes(si);
  }

  /** Every parsed struct meets `Session`'s condition on defaults. */
  lemma ParsedHasDefaults(input: StructInputs.DeriveInput)
    requires LegacyStructInputs.ParseSpec(input).Ok?
    ensures var si := LegacyStructInputs.ParseSpec(input).value;
      forall k :: 0 <= k < |si.optionalFields| ==> si.optionalFields[k].attrs.default.Some?
  {
    LegacyStructInputs.ParseSorted(input);
    var si := LegacyStructInputs.ParseSpec(input).value;
    forall k | 0 <= k < |si.optionalFields| ensures si.optionalFields[k].attrs.default.Some? {
      assert si.optionalFields[k] in si.optionalFields;
    }
  }
}
