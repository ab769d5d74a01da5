/** The setter walk of src/builder/functions.rs: the same setters as
    `builder_functions` in src/struct_input.rs, except that a hidden field
    gets none while still taking its slot index. */
module LegacyFunctions {
  import StructInputs
  import LegacyStructInputs
  import LegacyBuilders

  /** `BuilderFunctions::to_tokens`: setter `k` exactly for each field `k`
      that is not hidden, in slot order. */
  method ToTokens(si: LegacyStructInputs.StructInput) returns (plans: seq<LegacyBuilders.SetterPlan>)
    ensures forall p :: p in plans ==>
      p.index < LegacyStructInputs.NumFields(si)
      && p == LegacyBuilders.PlanAt(LegacyBuilders.TyBuilderPatternVars, LegacyStructInputs.Slots(si), p.index)
    ensures forall k :: 0 <= k < LegacyStructInputs.NumFields(si) ==>
      (LegacyBuilders.PlanAt(LegacyBuilders.TyBuilderPatternVars, LegacyStructInputs.Slots(si), k) in plans
       <==> !LegacyStructInputs.AllFields(si)[k].attrs.hidden)
    ensures forall a, b :: 0 <= a < b < |plans| ==> plans[a].index < plans[b].index
  {
    plans := LegacyBuilders.BuilderFunctions(LegacyBuilders.TyBuilderPatternVars, LegacyStructInputs.Slots(si), true);
    LegacyBuilders.PlansCover(LegacyBuilders.TyBuilderPatternVars, LegacyStructInputs.Slots(si), true);
  }

  /** On a parsed struct no field is hidden, so this walk emits exactly the
      setters of `builder_functions`. */
  lemma SameAsBuilderFunctions(input: StructInputs.DeriveInput)
    requires LegacyStructInputs.ParseSpec(input).Ok?
    ensures var si := LegacyStructInputs.ParseSpec(input).value;
      LegacyBuilders.Plans(LegacyBuilders.TyBuilderPatternVars, LegacyStructInputs.Slots(si), true)
      == LegacyBuilders.Plans(LegacyBuilders.TyBuilderPatternVars, LegacyStructInputs.Slots(si), false)
  {
    var si := LegacyStructInputs.ParseSpec(input).value;
    var fs := LegacyStructInputs.Slots(si);
    LegacyStructInputs.ParsedNeverHidden(input);
    forall k | 0 <= k < |fs| ensures !fs[k].hidden {
      assert LegacyStructInputs.AllFields(si)[k] in LegacyStructInputs.AllFields(si);
    }
    LegacyBuilders.NoHiddenSame(LegacyBuilders.TyBuilderPatternVars, fs, |fs|);
  }
}
