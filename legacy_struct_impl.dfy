/** `new()` of the earlier generator (src/struct_impl.rs): the builder with
    `()` in every slot, required fields `None` and optional fields `Some` of
    their default expression. */
module LegacyStructImpls {
  import opened Wrappers
  import opened Seqs
  import opened TypeState
  import LegacyFields
  import LegacyStructInputs
  import LegacyBuilders

  /** `empty_generics`: the type `new()` returns, `()` in every slot. */
  function EmptyGenerics(si: LegacyStructInputs.StructInput): (r: seq<TypeArg>)
    ensures |r| == LegacyStructInputs.NumFields(si)
    ensures forall k :: 0 <= k < |r| ==> r[k] == Unit
  {
    LegacyBuilders.EmptyGenerics(LegacyStructInputs.NumFields(si))
  }

  /** `builder_init_args`: per field in slot order, `None` for a required
      field and the default expression for an optional one. */
  function BuilderInitArgs(si: LegacyStructInputs.StructInput): (r: seq<Option<string>>)
    ensures |r| == LegacyStructInputs.NumFields(si)
    ensures forall k :: 0 <= k < |si.requiredFields| ==> r[k].None?
    ensures forall k :: |si.requiredFields| <= k < |r| ==> r[k] == si.optionalFields[k - |si.requiredFields|].attrs.default
  {
    Map(si.requiredFields, (f: LegacyFields.Field) => None)
      + Map(si.optionalFields, (f: LegacyFields.Field) => f.attrs.default)
  }

  /** The default expressions of the optional fields. */
  function Defaults(si: LegacyStructInputs.StructInput): (r: seq<string>)
    requires forall k :: 0 <= k < |si.optionalFields| ==> si.optionalFields[k].attrs.default.Some?
    ensures |r| == |si.optionalFields|
    ensures forall k :: 0 <= k < |r| ==> Some(r[k]) == si.optionalFields[k].attrs.default
  {
    seq(|si.optionalFields|, k requires 0 <= k < |si.optionalFields| => si.optionalFields[k].attrs.default.value)
  }

  /** The builder `new()` returns, its default expressions evaluated by
      `env.eval`. */
  function New(si: LegacyStructInputs.StructInput, env: LegacyBuilders.Env): LegacyBuilders.Builder
  {
    LegacyBuilders.Builder(State(EmptyGenerics(si), []),
      Map(BuilderInitArgs(si), (e: Option<string>) => if e.Some? then Some(env.eval(e.value)) else None))
  }

  /** For a struct whose optional fields all carry a default, as `parse`
      guarantees, `new()` is the type-state builder's start: `()` in every
      slot, required fields unset, optional fields holding their evaluated
      defaults. */
  lemma NewIsStart(si: LegacyStructInputs.StructInput, env: LegacyBuilders.Env)
    requires forall k :: 0 <= k < |si.optionalFields| ==> si.optionalFields[k].attrs.default.Some?
    ensures New(si, env) == LegacyBuilders.NewBuilder(|si.requiredFields|, Defaults(si), env)
  {
    var r := |si.requiredFields|;
    var a := New(si, env).values;
    var b := LegacyBuilders.NewBuilder(r, Defaults(si), env).values;
    assert forall k :: 0 <= k < |a| ==> a[k] == b[k];
  }
}
