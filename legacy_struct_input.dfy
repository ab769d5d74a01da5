/** The parsed struct of the earlier generator (src/struct_input.rs): the
    fields split into required and optional ones and sorted by identifier,
    the slot variables `TyBuilderPattern1..N`, the builder's `Option` fields
    and the setter walk. The generic parameter lists are in
    legacy_generics.dfy. */
module LegacyStructInputs {
  import opened Wrappers
  import opened Seqs
  import opened Idents
  import Attributes
  import LegacyAttributes
  import opened LegacyFields
  import StructInputs
  import LegacyBuilders
  import opened TypeState

  datatype StructInput = StructInput(
    vis: string,
    ident: string,
    generics: StructInputs.Generics,
    attrs: seq<Attributes.Attribute>,
    requiredFields: seq<Field>,
    optionalFields: seq<Field>)

  function FieldIdent(f: Field): string
  {
    f.ident
  }

  /** The field built from one declaration: its attributes folded first,
      then its identifier unwrapped. */
  function ParseField(raw: StructInputs.RawField): Result<Field>
  {
    match LegacyAttributes.FoldPrefix(raw.attrs, |raw.attrs|)
    case Err(e) => Err(e)
    case Ok(attrs) =>
      match raw.ident
      case None => Err(LegacyBuilders.OptionUnwrapPanic)
      case Some(ident) => Ok(Field(raw.vis, ident, raw.ty, attrs))
  }

  predicate HasDefault(f: Field)
  {
    f.attrs.default.Some?
  }

  predicate NoDefault(f: Field)
  {
    f.attrs.default.None?
  }

  /** The two lists (required, optional) after the first `n` declarations,
      in declaration order. */
  function PartitionPrefix(raws: seq<StructInputs.RawField>, n: nat): Result<(seq<Field>, seq<Field>)>
    requires n <= |raws|
  {
    if n == 0 then Ok(([], []))
    else
      match PartitionPrefix(raws, n - 1)
      case Err(e) => Err(e)
      case Ok(lists) =>
        match ParseField(raws[n - 1])
        case Err(e) => Err(e)
        case Ok(f) =>
          if f.attrs.default.Some? then Ok((lists.0, lists.1 + [f])) else Ok((lists.0 + [f], lists.1))
  }

  /** What `parse` gives: the fields partitioned, then each list sorted by
      identifier. */
  function ParseSpec(input: StructInputs.DeriveInput): Result<StructInput>
  {
    match input.data
    case NamedStruct(raws) =>
      (match PartitionPrefix(raws, |raws|)
       case Err(e) => Err(e)
       case Ok(lists) =>
         Ok(StructInput(input.vis, input.ident, input.generics, input.attrs,
                        SortBy(lists.0, FieldIdent), SortBy(lists.1, FieldIdent))))
    case NotStruct => Err("not implemented: Only structures are supported!")
    case _ => Err("not implemented: Only named structures are supported!")
  }

  /** `Parse for StructInput`: folds each field's attributes, pushes the
      field onto one of two lists, then sorts both. */
  method Parse(input: StructInputs.DeriveInput) returns (r: Result<StructInput>)
    ensures r == ParseSpec(input)
  {
    if !input.data.NamedStruct? {
      if input.data.NotStruct? {
        return Err("not implemented: Only structures are supported!");
      }
      return Err("not implemented: Only named structures are supported!");
    }
    var raws := input.data.fields;
    var optionalFields: seq<Field> := [];
    var requiredFields: seq<Field> := [];
    var i := 0;
    while i < |raws|
      invariant 0 <= i <= |raws|
      invariant PartitionPrefix(raws, i) == Ok((requiredFields, optionalFields))
    {
      var f := raws[i];
      var attrs := LegacyAttributes.From(f.attrs);
      if attrs.Err? {
        PartitionErrorPersists(raws, i + 1, |raws|);
        return Err(attrs.error);
      }
      if f.ident.None? {
        PartitionErrorPersists(raws, i + 1, |raws|);
        return Err(LegacyBuilders.OptionUnwrapPanic);
      }
      var field := Field(f.vis, f.ident.value, f.ty, attrs.value);
      if attrs.value.default.Some? {
        optionalFields := optionalFields + [field];
      } else {
        requiredFields := requiredFields + [field];
      }
      i := i + 1;
    }
    optionalFields := SortBy(optionalFields, FieldIdent);
    requiredFields := SortBy(requiredFields, FieldIdent);
    r := Ok(StructInput(input.vis, input.ident, input.generics, input.attrs, requiredFields, optionalFields));
  }

  lemma {:induction false} PartitionErrorPersists(raws: seq<StructInputs.RawField>, i: nat, n: nat)
    requires i <= n <= |raws|
    requires PartitionPrefix(raws, i).Err?
    ensures PartitionPrefix(raws, n) == PartitionPrefix(raws, i)
  {
    if n > i {
      PartitionErrorPersists(raws, i, n - 1);
    }
  }

  /** The fields the first `n` declarations become, in declaration order. */
  function ParsedPrefix(raws: seq<StructInputs.RawField>, n: nat): seq<Field>
    requires n <= |raws|
    requires forall k :: 0 <= k < n ==> ParseField(raws[k]).Ok?
  {
    if n == 0 then [] else ParsedPrefix(raws, n - 1) + [ParseField(raws[n - 1]).value]
  }

  /** The partition succeeds exactly when every declaration parses. */
  lemma {:induction false} PartitionOk(raws: seq<StructInputs.RawField>, n: nat)
    requires n <= |raws|
    ensures PartitionPrefix(raws, n).Ok? <==> forall k :: 0 <= k < n ==> ParseField(raws[k]).Ok?
  {
    if n > 0 {
      PartitionOk(raws, n - 1);
    }
  }

  /** Every field lands in exactly one list: the optional list holds the
      fields with a default, the required list those without, each in
      declaration order. */
  lemma {:induction false} PartitionMeaning(raws: seq<StructInputs.RawField>, n: nat)
    requires n <= |raws|
    requires forall k :: 0 <= k < n ==> ParseField(raws[k]).Ok?
    ensures PartitionPrefix(raws, n).Ok?
    ensures PartitionPrefix(raws, n).value.0 == Filter(ParsedPrefix(raws, n), NoDefault)
    ensures PartitionPrefix(raws, n).value.1 == Filter(ParsedPrefix(raws, n), HasDefault)
  {
    if n > 0 {
      PartitionMeaning(raws, n - 1);
      var fs := ParsedPrefix(raws, n - 1);
      var f := ParseField(raws[n - 1]).value;
      var all := ParsedPrefix(raws, n);
      assert all == fs + [f];
      PartitionStep(raws, n);
      FilterSnoc(fs, f, NoDefault);
      FilterSnoc(fs, f, HasDefault);
    }
  }

  lemma PartitionStep(raws: seq<StructInputs.RawField>, n: nat)
    requires 0 < n <= |raws|
    requires PartitionPrefix(raws, n - 1).Ok? && ParseField(raws[n - 1]).Ok?
    ensures PartitionPrefix(raws, n).Ok?
    ensures HasDefault(ParseField(raws[n - 1]).value) ==>
      PartitionPrefix(raws, n).value.0 == PartitionPrefix(raws, n - 1).value.0 &&
      PartitionPrefix(raws, n).value.1 == PartitionPrefix(raws, n - 1).value.1 + [ParseField(raws[n - 1]).value]
    ensures !HasDefault(ParseField(raws[n - 1]).value) ==>
      PartitionPrefix(raws, n).value.0 == PartitionPrefix(raws, n - 1).value.0 + [ParseField(raws[n - 1]).value] &&
      PartitionPrefix(raws, n).value.1 == PartitionPrefix(raws, n - 1).value.1
  {
  }

  /** A declaration parses exactly when its attributes fold and it has an
      identifier; the field then keeps the declared visibility and type. */
  lemma ParseFieldMeaning(raw: StructInputs.RawField)
    ensures ParseField(raw).Ok? <==> LegacyAttributes.Accepted(raw.attrs, |raw.attrs|) && raw.ident.Some?
    ensures ParseField(raw).Ok? ==>
      ParseField(raw).value == Field(raw.vis, raw.ident.value, raw.ty, LegacyAttributes.FoldPrefix(raw.attrs, |raw.attrs|).value)
    ensures LegacyAttributes.Accepted(raw.attrs, |raw.attrs|) && raw.ident.None? ==>
      ParseField(raw) == Err(LegacyBuilders.OptionUnwrapPanic)
  {
    LegacyAttributes.FoldAccepted(raw.attrs, |raw.attrs|);
  }

  /** The parsed lists are sorted by identifier, together hold exactly the
      declared fields, and a field is optional exactly when it has a
      default. */
  lemma ParseSorted(input: StructInputs.DeriveInput)
    requires ParseSpec(input).Ok?
    ensures input.data.NamedStruct?
    ensures forall k :: 0 <= k < |input.data.fields| ==> ParseField(input.data.fields[k]).Ok?
    ensures var si := ParseSpec(input).value;
      && SortedBy(si.requiredFields, FieldIdent)
      && SortedBy(si.optionalFields, FieldIdent)
      && (forall f :: f in si.requiredFields ==> NoDefault(f))
      && (forall f :: f in si.optionalFields ==> HasDefault(f))
      && multiset(si.requiredFields + si.optionalFields) == multiset(ParsedPrefix(input.data.fields, |input.data.fields|))
  {
    var raws := input.data.fields;
    PartitionOk(raws, |raws|);
    PartitionMeaning(raws, |raws|);
    var lists := PartitionPrefix(raws, |raws|).value;
    var fs := ParsedPrefix(raws, |raws|);
    var si := ParseSpec(input).value;
    assert si.requiredFields == SortBy(lists.0, FieldIdent);
    assert si.optionalFields == SortBy(lists.1, FieldIdent);
    SortBySorted(lists.0, FieldIdent);
    SortBySorted(lists.1, FieldIdent);
    FilterSplit(fs, NoDefault, HasDefault);
    assert multiset(si.requiredFields + si.optionalFields) == multiset(lists.0 + lists.1);
    forall f | f in si.requiredFields ensures NoDefault(f) {
      assert f in multiset(lists.0);
    }
    forall f | f in si.optionalFields ensures HasDefault(f) {
      assert f in multiset(lists.1);
    }
  }

  // ---- the builder's shape ----

  function NumFields(si: StructInput): (n: nat)
    ensures n == |AllFields(si)|
  {
    |si.requiredFields| + |si.optionalFields|
  }

  /** The fields in slot order: required first, then optional. */
  function AllFields(si: StructInput): seq<Field>
  {
    si.requiredFields + si.optionalFields
  }

  /** `builder_name`. */
  function BuilderName(si: StructInput): string
  {
    si.ident + "Builder"
  }

  /** `all_generics`: the slot variables `TyBuilderPattern1..N`, one per
      field. */
  function AllGenerics(si: StructInput): (r: seq<GenName>)
    ensures |r| == NumFields(si)
    ensures forall k :: 0 <= k < |r| ==> r[k] == TyBuilderPattern(k + 1)
  {
    LegacyBuilders.AllGenerics(LegacyBuilders.TyBuilderPatternVars, NumFields(si))
  }

  /** A builder field `ident: Option<ty>`. */
  datatype OptionField = OptionField(ident: string, ty: string)

  /** `builder_fields`: one `Option` field per struct field, in slot
      order. */
  function BuilderFields(si: StructInput): (r: seq<OptionField>)
    ensures |r| == NumFields(si)
    ensures forall k :: 0 <= k < |r| ==> r[k] == OptionField(AllFields(si)[k].ident, AllFields(si)[k].ty)
  {
    Map(AllFields(si), (f: Field) => OptionField(f.ident, f.ty))
  }

  /** What the setter walk reads of each field, in slot order. */
  function Slots(si: StructInput): (r: seq<LegacyBuilders.SlotField>)
    ensures |r| == NumFields(si)
    ensures forall k :: 0 <= k < |r| ==>
      r[k] == LegacyBuilders.SlotField(AllFields(si)[k].ident, AllFields(si)[k].ty, AllFields(si)[k].attrs.useInto,
        AllFields(si)[k].attrs.validator, AllFields(si)[k].attrs.hidden)
  {
    Map(AllFields(si), (f: Field) => LegacyBuilders.SlotField(f.ident, f.ty, f.attrs.useInto, f.attrs.validator, f.attrs.hidden))
  }

  /** `builder_functions`: one setter per field, setter `k` for slot `k`. */
  method BuilderFunctions(si: StructInput) returns (plans: seq<LegacyBuilders.SetterPlan>)
    ensures |plans| == NumFields(si)
    ensures forall k :: 0 <= k < |plans| ==> plans[k] == LegacyBuilders.PlanAt(LegacyBuilders.TyBuilderPatternVars, Slots(si), k)
  {
    plans := LegacyBuilders.BuilderFunctions(LegacyBuilders.TyBuilderPatternVars, Slots(si), false);
    LegacyBuilders.PlansAllSet(LegacyBuilders.TyBuilderPatternVars, Slots(si), |Slots(si)|);
  }

  /** No parsed field is hidden: the fold never sets the flag. */
  lemma ParsedNeverHidden(input: StructInputs.DeriveInput)
    requires ParseSpec(input).Ok?
    ensures forall f :: f in AllFields(ParseSpec(input).value) ==> !f.attrs.hidden
  {
    ParseSorted(input);
    var raws := input.data.fields;
    ParsedPrefixNeverHidden(raws, |raws|);
    var si := ParseSpec(input).value;
    forall f | f in AllFields(si) ensures !f.attrs.hidden {
      assert f in multiset(si.requiredFields + si.optionalFields);
      assert f in ParsedPrefix(raws, |raws|);
    }
  }

  lemma {:induction false} ParsedPrefixNeverHidden(raws: seq<StructInputs.RawField>, n: nat)
    requires n <= |raws|
    requires forall k :: 0 <= k < n ==> ParseField(raws[k]).Ok?
    ensures forall f :: f in ParsedPrefix(raws, n) ==> !f.attrs.hidden
  {
    if n > 0 {
      ParsedPrefixNeverHidden(raws, n - 1);
      var raw := raws[n - 1];
      LegacyAttributes.FoldFields(raw.attrs, |raw.attrs|);
    }
  }
}
