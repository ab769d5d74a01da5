/** The earliest full generator (src/structure.rs): a field is optional when
    it carries a `default` attribute, whose argument is its default
    expression. The fields keep their declaration order. The slot
    variables are `U1..UN`. Every setter takes `InToType: Into<T>` and has
    no validator. The generic parameter lists are in legacy_generics.dfy. */
module Structures {
  import opened Wrappers
  import opened Seqs
  import Attributes
  import StructInputs
  import LegacyBuilders
  import opened TypeState

  /** `Field { vis, ident, ty, expr }`. */
  datatype Field = Field(vis: string, ident: string, ty: string, expr: Option<string>)

  datatype StructureInput = StructureInput(
    vis: string,
    ident: string,
    generics: StructInputs.Generics,
    requiredFields: seq<Field>,
    optionalFields: seq<Field>)

  predicate IsDefault(a: Attributes.Attribute)
  {
    Attributes.IsIdent(a.path, "default")
  }

  /** `attrs.iter().find(|attr| attr.path.is_ident("default"))`: the
      position of the first `default` attribute. */
  function FindDefault(attrs: seq<Attributes.Attribute>): (r: Option<nat>)
    ensures r.Some? ==> r.value < |attrs| && IsDefault(attrs[r.value])
    ensures r.Some? ==> forall j :: 0 <= j < r.value ==> !IsDefault(attrs[j])
    ensures r.None? <==> forall j :: 0 <= j < |attrs| ==> !IsDefault(attrs[j])
  {
    if attrs == [] then None
    else if IsDefault(attrs[0]) then Some(0)
    else
      match FindDefault(attrs[1..])
      case None => None
      case Some(i) => Some(i + 1)
  }

  /** The field built from one declaration. The identifier is unwrapped
      before the `default` attribute's argument is parsed. */
  function ParseField(raw: StructInputs.RawField): Result<Field>
  {
    if raw.ident.None? then Err(LegacyBuilders.OptionUnwrapPanic)
    else
      match FindDefault(raw.attrs)
      case None => Ok(Field(raw.vis, raw.ident.value, raw.ty, None))
      case Some(i) =>
        if raw.attrs[i].expr.None? then Err(Attributes.MetaUnwrapPanic)
        else Ok(Field(raw.vis, raw.ident.value, raw.ty, raw.attrs[i].expr))
  }

  /** A declaration parses exactly when it has an identifier and its first
      `default` attribute, if any, has an expression as argument. The field
      is optional exactly when it has a `default` attribute, and its
      expression is that of the first one. */
  lemma ParseFieldMeaning(raw: StructInputs.RawField)
    ensures ParseField(raw).Ok? <==>
      raw.ident.Some? && (FindDefault(raw.attrs).Some? ==> raw.attrs[FindDefault(raw.attrs).value].expr.Some?)
    ensures ParseField(raw).Ok? ==>
      && ParseField(raw).value.ident == raw.ident.value
      && ParseField(raw).value.ty == raw.ty
      && (ParseField(raw).value.expr.Some? <==> exists j :: 0 <= j < |raw.attrs| && IsDefault(raw.attrs[j]))
      && (FindDefault(raw.attrs).Some? ==> ParseField(raw).value.expr == raw.attrs[FindDefault(raw.attrs).value].expr)
  {
  }

  predicate HasExpr(f: Field)
  {
    f.expr.Some?
  }

  predicate NoExpr(f: Field)
  {
    f.expr.None?
  }

  /** The two lists (required, optional) after the first `n` declarations. */
  function PartitionPrefix(raws: seq<StructInputs.RawField>, n: nat): Result<(seq<Field>, seq<Field>)>
    requires n <= |raws|
  {
    if n == 0 then Ok(([], []))
    else
      match PartitionPrefix(raws, n - 1)
      case Err(e) => Err(e)
      case Ok(lists) =>
        match ParseField(raws[n - 1])
        case Err(e) => Err(e)
        case Ok(f) =>
          if f.expr.Some? then Ok((lists.0, lists.1 + [f])) else Ok((lists.0 + [f], lists.1))
  }

  const NotStructure := "not implemented: Only structures are supported!"

  /** What `parse` gives: the fields partitioned, in declaration order. */
  function ParseSpec(input: StructInputs.DeriveInput): Result<StructureInput>
  {
    match input.data
    case NamedStruct(raws) =>
      (match PartitionPrefix(raws, |raws|)
       case Err(e) => Err(e)
       case Ok(lists) => Ok(StructureInput(input.vis, input.ident, input.generics, lists.0, lists.1)))
    case _ => Err(NotStructure)
  }

  /** `Parse for StructureInput`: pushes each field onto one of two
      lists. */
  method Parse(input: StructInputs.DeriveInput) returns (r: Result<StructureInput>)
    ensures r == ParseSpec(input)
  {
    if !input.data.NamedStruct? {
      return Err(NotStructure);
    }
    var raws := input.data.fields;
    var optionalFields: seq<Field> := [];
    var requiredFields: seq<Field> := [];
    var i := 0;
    while i < |raws|
      invariant 0 <= i <= |raws|
      invariant PartitionPrefix(raws, i) == Ok((requiredFields, optionalFields))
    {
      var f := raws[i];
      if f.ident.None? {
        PartitionErrorPersists(raws, i + 1, |raws|);
        return Err(LegacyBuilders.OptionUnwrapPanic);
      }
      var found := FindDefault(f.attrs);
      match found {
        case Some(j) =>
          if f.attrs[j].expr.None? {
            PartitionErrorPersists(raws, i + 1, |raws|);
            return Err(Attributes.MetaUnwrapPanic);
          }
          optionalFields := optionalFields + [Field(f.vis, f.ident.value, f.ty, f.attrs[j].expr)];
        case None =>
          requiredFields := requiredFields + [Field(f.vis, f.ident.value, f.ty, None)];
      }
      i := i + 1;
    }
    r := Ok(StructureInput(input.vis, input.ident, input.generics, requiredFields, optionalFields));
  }

  lemma {:induction false} PartitionErrorPersists(raws: seq<StructInputs.RawField>, i: nat, n: nat)
    requires i <= n <= |raws|
    requires PartitionPrefix(raws, i).Err?
    ensures PartitionPrefix(raws, n) == PartitionPrefix(raws, i)
  {
    if n > i {
      PartitionErrorPersists(raws, i, n - 1);
    }
  }

  /** The fields the first `n` declarations become, in declaration order. */
  function ParsedPrefix(raws: seq<StructInputs.RawField>, n: nat): seq<Field>
    requires n <= |raws|
    requires forall k :: 0 <= k < n ==> ParseField(raws[k]).Ok?
  {
    if n == 0 then [] else ParsedPrefix(raws, n - 1) + [ParseField(raws[n - 1]).value]
  }

  /** The partition succeeds exactly when every declaration parses. */
  lemma {:induction false} PartitionOk(raws: seq<StructInputs.RawField>, n: nat)
    requires n <= |raws|
    ensures PartitionPrefix(raws, n).Ok? <==> forall k :: 0 <= k < n ==> ParseField(raws[k]).Ok?
  {
    if n > 0 {
      PartitionOk(raws, n - 1);
    }
  }

  /** Every field lands in exactly one list: the optional list holds the
      fields with a default expression and the required list those without,
      each in declaration order. */
  lemma {:induction false} PartitionMeaning(raws: seq<StructInputs.RawField>, n: nat)
    requires n <= |raws|
    requires forall k :: 0 <= k < n ==> ParseField(raws[k]).Ok?
    ensures PartitionPrefix(raws, n).Ok?
    ensures PartitionPrefix(raws, n).value.0 == Filter(ParsedPrefix(raws, n), NoExpr)
    ensures PartitionPrefix(raws, n).value.1 == Filter(ParsedPrefix(raws, n), HasExpr)
  {
    if n > 0 {
      PartitionMeaning(raws, n - 1);
      var fs := ParsedPrefix(raws, n - 1);
      var f := ParseField(raws[n - 1]).value;
      var all := ParsedPrefix(raws, n);
      assert all == fs + [f];
      PartitionStep(raws, n);
      FilterSnoc(fs, f, NoExpr);
      FilterSnoc(fs, f, HasExpr);
    }
  }

  lemma PartitionStep(raws: seq<StructInputs.RawField>, n: nat)
    requires 0 < n <= |raws|
    requires PartitionPrefix(raws, n - 1).Ok? && ParseField(raws[n - 1]).Ok?
    ensures PartitionPrefix(raws, n).Ok?
    ensures HasExpr(ParseField(raws[n - 1]).value) ==>
      PartitionPrefix(raws, n).value.0 == PartitionPrefix(raws, n - 1).value.0 &&
      PartitionPrefix(raws, n).value.1 == PartitionPrefix(raws, n - 1).value.1 + [ParseField(raws[n - 1]).value]
    ensures !HasExpr(ParseField(raws[n - 1]).value) ==>
      PartitionPrefix(raws, n).value.0 == PartitionPrefix(raws, n - 1).value.0 + [ParseField(raws[n - 1]).value] &&
      PartitionPrefix(raws, n).value.1 == PartitionPrefix(raws, n - 1).value.1
  {
  }

  /** A parsed input holds every declared field once, the fields with a
      `default` attribute as optional ones, each list in declaration
      order. */
  lemma ParseMeaning(input: StructInputs.DeriveInput)
    requires ParseSpec(input).Ok?
    ensures input.data.NamedStruct?
    ensures forall k :: 0 <= k < |input.data.fields| ==> ParseField(input.data.fields[k]).Ok?
    ensures var si := ParseSpec(input).value;
      var fs := ParsedPrefix(input.data.fields, |input.data.fields|);
      && si.requiredFields == Filter(fs, NoExpr)
      && si.optionalFields == Filter(fs, HasExpr)
      && multiset(si.requiredFields + si.optionalFields) == multiset(fs)
  {
    var raws := input.data.fields;
    PartitionOk(raws, |raws|);
    PartitionMeaning(raws, |raws|);
    FilterSplit(ParsedPrefix(raws, |raws|), NoExpr, HasExpr);
  }

  // ---- the builder ----

  function NumFields(si: StructureInput): (n: nat)
    ensures n == |AllFields(si)|
  {
    |si.requiredFields| + |si.optionalFields|
  }

  /** The fields in slot order: required first, then optional. */
  function AllFields(si: StructureInput): seq<Field>
  {
    si.requiredFields + si.optionalFields
  }

  /** `all_generics`: `U1..UN`, one per field. */
  function AllGenerics(si: StructureInput): (r: seq<GenName>)
    ensures |r| == NumFields(si)
    ensures forall k :: 0 <= k < |r| ==> r[k] == U(k + 1)
  {
    LegacyBuilders.AllGenerics(LegacyBuilders.UVars, NumFields(si))
  }

  /** `empty_generics`: `()` in every slot. */
  function EmptyGenerics(si: StructureInput): (r: seq<TypeArg>)
    ensures |r| == NumFields(si)
    ensures forall k :: 0 <= k < |r| ==> r[k] == Unit
  {
    LegacyBuilders.EmptyGenerics(NumFields(si))
  }

  /** `optional_generics`: `U{r+1}..U{r+o}`. */
  function OptionalGenerics(si: StructureInput): (g: seq<GenName>)
    ensures |g| == |si.optionalFields|
    ensures g == AllGenerics(si)[|si.requiredFields|..]
  {
    LegacyBuilders.OptionalGenerics(LegacyBuilders.UVars, |si.requiredFields|, |si.optionalFields|)
  }

  function RequiredTypes(si: StructureInput): seq<string>
  {
    Map(si.requiredFields, (f: Field) => f.ty)
  }

  /** `satified_generics`: the required field types, then the optional slot
      variables. */
  function SatisfiedGenerics(si: StructureInput): (r: seq<Pat>)
    ensures |r| == NumFields(si)
    ensures forall k :: 0 <= k < |si.requiredFields| ==> r[k] == Lit(Ty(si.requiredFields[k].ty))
    ensures forall k :: |si.requiredFields| <= k < |r| ==> r[k] == Var(U(k + 1))
  {
    LegacyBuilders.SatisfiedGenerics(LegacyBuilders.UVars, RequiredTypes(si), |si.optionalFields|)
  }

  /** A builder field `ident: Option<ty>`. */
  datatype OptionField = OptionField(ident: string, ty: string)

  /** `builder_fields`: one `Option` field per struct field, in slot
      order. */
  function BuilderFields(si: StructureInput): (r: seq<OptionField>)
    ensures |r| == NumFields(si)
    ensures forall k :: 0 <= k < |r| ==> r[k] == OptionField(AllFields(si)[k].ident, AllFields(si)[k].ty)
  {
    Map(AllFields(si), (f: Field) => OptionField(f.ident, f.ty))
  }

  /** `builder_init_args`: `None` for a required field, the default
      expression for an optional one. */
  function BuilderInitArgs(si: StructureInput): (r: seq<Option<string>>)
    ensures |r| == NumFields(si)
    ensures forall k :: 0 <= k < |si.requiredFields| ==> r[k].None?
    ensures forall k :: |si.requiredFields| <= k < |r| ==> r[k] == si.optionalFields[k - |si.requiredFields|].expr
  {
    Map(si.requiredFields, (f: Field) => None) + Map(si.optionalFields, (f: Field) => f.expr)
  }

  /** The optional fields' default expressions. */
  function Defaults(si: StructureInput): (r: seq<string>)
    requires forall k :: 0 <= k < |si.optionalFields| ==> si.optionalFields[k].expr.Some?
    ensures |r| == |si.optionalFields|
    ensures forall k :: 0 <= k < |r| ==> Some(r[k]) == si.optionalFields[k].expr
  {
    seq(|si.optionalFields|, k requires 0 <= k < |si.optionalFields| => si.optionalFields[k].expr.value)
  }

  /** The builder `new()` returns, its default expressions evaluated by
      `env.eval`. */
  function New(si: StructureInput, env: LegacyBuilders.Env): LegacyBuilders.Builder
  {
    LegacyBuilders.Builder(State(EmptyGenerics(si), []),
      Map(BuilderInitArgs(si), (e: Option<string>) => if e.Some? then Some(env.eval(e.value)) else None))
  }

  /** What the setter walk reads of each field: always `into`, never a
      validator, never hidden. */
  function Slots(si: StructureInput): (r: seq<LegacyBuilders.SlotField>)
    ensures |r| == NumFields(si)
    ensures forall k :: 0 <= k < |r| ==>
      r[k] == LegacyBuilders.SlotField(AllFields(si)[k].ident, AllFields(si)[k].ty, true, None, false)
  {
    Map(AllFields(si), (f: Field) => LegacyBuilders.SlotField(f.ident, f.ty, true, None, false))
  }

  /** `builder_functions`: one setter per field, setter `k` for slot `k`,
      each taking `Into` and returning the builder directly. */
  method BuilderFunctions(si: StructureInput) returns (plans: seq<LegacyBuilders.SetterPlan>)
    ensures |plans| == NumFields(si)
    ensures forall k :: 0 <= k < |plans| ==> plans[k] == LegacyBuilders.PlanAt(LegacyBuilders.UVars, Slots(si), k)
    ensures forall k :: 0 <= k < |plans| ==> plans[k].useInto && plans[k].validator.None?
  {
    plans := LegacyBuilders.BuilderFunctions(LegacyBuilders.UVars, Slots(si), false);
    LegacyBuilders.PlansAllSet(LegacyBuilders.UVars, Slots(si), |Slots(si)|);
  }

  /** A setter without a validator always returns the builder: every
      setter call accepts its argument. */
  lemma SettersAccept(si: StructureInput, calls: seq<LegacyBuilders.Invocation>, env: LegacyBuilders.Env)
    requires LegacyBuilders.FromPlans(LegacyBuilders.UVars, Slots(si), false, calls)
    ensures LegacyBuilders.AllAccepted(calls, env)
  {
    LegacyBuilders.PlansCover(LegacyBuilders.UVars, Slots(si), false);
    forall i | 0 <= i < |calls| ensures LegacyBuilders.Stored(calls[i].plan, calls[i].v, env).Ok? {
      assert calls[i].plan in LegacyBuilders.Plans(LegacyBuilders.UVars, Slots(si), false);
    }
  }

  /** The parsed struct's `new()` and `build` header are the type-state
      builder's, with the optional fields' defaults. */
  lemma SessionSetup(si: StructureInput, env: LegacyBuilders.Env)
    requires forall k :: 0 <= k < |si.optionalFields| ==> si.optionalFields[k].expr.Some?
    ensures New(si, env) == LegacyBuilders.NewBuilder(|si.requiredFields|, Defaults(si), env)
    ensures LegacyBuilders.BuildHeaderOf(LegacyBuilders.UVars, Slots(si), |si.requiredFields|)
      == Header(SatisfiedGenerics(si), [])
  {
    var fs := Slots(si);
    var r := |si.requiredFields|;
    var a := New(si, env).values;
    var b := LegacyBuilders.NewBuilder(r, Defaults(si), env).values;
    assert forall k :: 0 <= k < |a| ==> a[k] == b[k];
    assert Map(fs[..r], (f: LegacyBuilders.SlotField) => f.ty) == RequiredTypes(si);
  }

  /** A whole session on a struct whose optional fields carry an expression,
      as every parsed struct's do (`ParseMeaning`): the chain type-checks
      exactly when it sets distinct fields. `build` then applies exactly
      when every required field was set, never panics, and returns the
      converted value given to each field that was set and the evaluated
      default of each optional field that was not. */
  lemma Session(si: StructureInput, calls: seq<LegacyBuilders.Invocation>, env: LegacyBuilders.Env)
    requires forall k :: 0 <= k < |si.optionalFields| ==> si.optionalFields[k].expr.Some?
    requires LegacyBuilders.FromPlans(LegacyBuilders.UVars, Slots(si), false, calls)
    ensures LegacyBuilders.Typed(calls, New(si, env).state).Some? <==> LegacyBuilders.Distinct(calls)
    ensures LegacyBuilders.Distinct(calls) ==>
      (Applies(Header(SatisfiedGenerics(si), []), LegacyBuilders.Typed(calls, New(si, env).state).value)
       <==> forall k :: 0 <= k < |si.requiredFields| ==> LegacyBuilders.Called(calls, k))
    ensures LegacyBuilders.Distinct(calls) ==>
      LegacyBuilders.RunSetters(calls, New(si, env), env).Some? &&
      LegacyBuilders.RunSetters(calls, New(si, env), env).value.Returned?
    ensures (LegacyBuilders.Distinct(calls) && forall k :: 0 <= k < |si.requiredFields| ==> LegacyBuilders.Called(calls, k)) ==>
      var values := LegacyBuilders.RunSetters(calls, New(si, env), env).value.b.values;
      && LegacyBuilders.Build(values).Done?
      && |LegacyBuilders.Build(values).value| == NumFields(si)
      && forall k :: 0 <= k < NumFields(si) ==>
        Some(LegacyBuilders.Build(values).value[k]) ==
          if LegacyBuilders.Called(calls, k) then LegacyBuilders.ValueFor(calls, k, env)
          else Some(env.eval(si.optionalFields[k - |si.requiredFields|].expr.value))
  {
    SettersAccept(si, calls, env);
    SessionSetup(si, env);
    LegacyBuilders.Session(LegacyBuilders.UVars, Slots(si), false, |si.requiredFields|, Defaults(si), calls, env);
  }

  /** Every parsed input meets `Session`'s condition on defaults. */
  lemma ParsedHasExprs(input: StructInputs.DeriveInput)
    requires ParseSpec(input).Ok?
    ensures var si := ParseSpec(input).value;
      forall k :: 0 <= k < |si.optionalFields| ==> si.optionalFields[k].expr.Some?
  {
    ParseMeaning(input);
    var si := ParseSpec(input).value;
    var fs := ParsedPrefix(input.data.fields, |input.data.fields|);
    forall k | 0 <= k < |si.optionalFields| ensures si.optionalFields[k].expr.Some? {
      assert si.optionalFields[k] in Filter(fs, HasExpr);
    }
  }
}
