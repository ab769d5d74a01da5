/** The earliest stub of the derive (builder-pattern/src/structure.rs): it
    splits the fields by their `default` attribute, keeping declaration
    order, and emits only an empty builder struct. */
module StubStructures {
  import opened Wrappers
  import opened Seqs
  import Attributes
  import StructInputs
  import Structures
  import LegacyBuilders

  /** `Field { ident, ty, expr }`. */
  datatype Field = Field(ident: string, ty: string, expr: Option<string>)

  datatype StructureInput = StructureInput(
    vis: string,
    ident: string,
    generics: StructInputs.Generics,
    requiredFields: seq<Field>,
    optionalFields: seq<Field>)

  /** The message of a bare `unimplemented!()`. */
  const NotImplemented := "not implemented"

  /** The field built from one declaration: its identifier unwrapped, then
      the argument of its first `default` attribute parsed. */
  function ParseField(raw: StructInputs.RawField): Result<Field>
  {
    if raw.ident.None? then Err(LegacyBuilders.OptionUnwrapPanic)
    else
      match Structures.FindDefault(raw.attrs)
      case None => Ok(Field(raw.ident.value, raw.ty, None))
      case Some(i) =>
        if raw.attrs[i].expr.None? then Err(Attributes.MetaUnwrapPanic)
        else Ok(Field(raw.ident.value, raw.ty, raw.attrs[i].expr))
  }

  predicate HasExpr(f: Field)
  {
    f.expr.Some?
  }

  predicate NoExpr(f: Field)
  {
    f.expr.None?
  }

  /** The two lists (required, optional) after the first `n` declarations. */
  function PartitionPrefix(raws: seq<StructInputs.RawField>, n: nat): Result<(seq<Field>, seq<Field>)>
    requires n <= |raws|
  {
    if n == 0 then Ok(([], []))
    else
      match PartitionPrefix(raws, n - 1)
      case Err(e) => Err(e)
      case Ok(lists) =>
        match ParseField(raws[n - 1])
        case Err(e) => Err(e)
        case Ok(f) =>
          if f.expr.Some? then Ok((lists.0, lists.1 + [f])) else Ok((lists.0 + [f], lists.1))
  }

  /** What `parse` gives: the fields partitioned, in declaration order. */
  function ParseSpec(input: StructInputs.DeriveInput): Result<StructureInput>
  {
    match input.data
    case NamedStruct(raws) =>
      (match PartitionPrefix(raws, |raws|)
       case Err(e) => Err(e)
       case Ok(lists) => Ok(StructureInput(input.vis, input.ident, input.generics, lists.0, lists.1)))
    case _ => Err(NotImplemented)
  }

  /** `Parse for StructureInput`: a loop pushing each field onto one of two
      lists. */
  method Parse(input: StructInputs.DeriveInput) returns (r: Result<StructureInput>)
    ensures r == ParseSpec(input)
  {
    if !input.data.NamedStruct? {
      return Err(NotImplemented);
    }
    var raws := input.data.fields;
    var optionalFields: seq<Field> := [];
    var requiredFields: seq<Field> := [];
    var i := 0;
    while i < |raws|
      invariant 0 <= i <= |raws|
      invariant PartitionPrefix(raws, i) == Ok((requiredFields, optionalFields))
    {
      var f := raws[i];
      if f.ident.None? {
        PartitionErrorPersists(raws, i + 1, |raws|);
        return Err(LegacyBuilders.OptionUnwrapPanic);
      }
      var found := Structures.FindDefault(f.attrs);
      match found {
        case Some(j) =>
          if f.attrs[j].expr.None? {
            PartitionErrorPersists(raws, i + 1, |raws|);
            return Err(Attributes.MetaUnwrapPanic);
          }
          optionalFields := optionalFields + [Field(f.ident.value, f.ty, f.attrs[j].expr)];
        case None =>
          requiredFields := requiredFields + [Field(f.ident.value, f.ty, None)];
      }
      i := i + 1;
    }
    r := Ok(StructureInput(input.vis, input.ident, input.generics, requiredFields, optionalFields));
  }

  lemma {:induction false} PartitionErrorPersists(raws: seq<StructInputs.RawField>, i: nat, n: nat)
    requires i <= n <= |raws|
    requires PartitionPrefix(raws, i).Err?
    ensures PartitionPrefix(raws, n) == PartitionPrefix(raws, i)
  {
    if n > i {
      PartitionErrorPersists(raws, i, n - 1);
    }
  }

  /** The fields the first `n` declarations become, in declaration order. */
  function ParsedPrefix(raws: seq<StructInputs.RawField>, n: nat): seq<Field>
    requires n <= |raws|
    requires forall k :: 0 <= k < n ==> ParseField(raws[k]).Ok?
  {
    if n == 0 then [] else ParsedPrefix(raws, n - 1) + [ParseField(raws[n - 1]).value]
  }

  /** The partition succeeds exactly when every declaration parses. */
  lemma {:induction false} PartitionOk(raws: seq<StructInputs.RawField>, n: nat)
    requires n <= |raws|
    ensures PartitionPrefix(raws, n).Ok? <==> forall k :: 0 <= k < n ==> ParseField(raws[k]).Ok?
  {
    if n > 0 {
      PartitionOk(raws, n - 1);
    }
  }

  /** Every field lands in exactly one list: the optional list holds the
      fields with a default expression and the required list those without,
      each in declaration order. */
  lemma {:induction false} PartitionMeaning(raws: seq<StructInputs.RawField>, n: nat)
    requires n <= |raws|
    requires forall k :: 0 <= k < n ==> ParseField(raws[k]).Ok?
    ensures PartitionPrefix(raws, n).Ok?
    ensures PartitionPrefix(raws, n).value.0 == Filter(ParsedPrefix(raws, n), NoExpr)
    ensures PartitionPrefix(raws, n).value.1 == Filter(ParsedPrefix(raws, n), HasExpr)
  {
    if n > 0 {
      PartitionMeaning(raws, n - 1);
      var fs := ParsedPrefix(raws, n - 1);
      var f := ParseField(raws[n - 1]).value;
      var all := ParsedPrefix(raws, n);
      assert all == fs + [f];
      PartitionStep(raws, n);
      FilterSnoc(fs, f, NoExpr);
      FilterSnoc(fs, f, HasExpr);
    }
  }

  lemma PartitionStep(raws: seq<StructInputs.RawField>, n: nat)
    requires 0 < n <= |raws|
    requires PartitionPrefix(raws, n - 1).Ok? && ParseField(raws[n - 1]).Ok?
    ensures PartitionPrefix(raws, n).Ok?
    ensures HasExpr(ParseField(raws[n - 1]).value) ==>
      PartitionPrefix(raws, n).value.0 == PartitionPrefix(raws, n - 1).value.0 &&
      PartitionPrefix(raws, n).value.1 == PartitionPrefix(raws, n - 1).value.1 + [ParseField(raws[n - 1]).value]
    ensures !HasExpr(ParseField(raws[n - 1]).value) ==>
      PartitionPrefix(raws, n).value.0 == PartitionPrefix(raws, n - 1).value.0 + [ParseField(raws[n - 1]).value] &&
      PartitionPrefix(raws, n).value.1 == PartitionPrefix(raws, n - 1).value.1
  {
  }

  /** A field is optional exactly when it has a `default` attribute, whose
      first occurrence gives its expression. */
  lemma ParseFieldMeaning(raw: StructInputs.RawField)
    requires ParseField(raw).Ok?
    ensures ParseField(raw).value.ident == raw.ident.value && ParseField(raw).value.ty == raw.ty
    ensures ParseField(raw).value.expr.Some? <==> exists j :: 0 <= j < |raw.attrs| && Structures.IsDefault(raw.attrs[j])
    ensures Structures.FindDefault(raw.attrs).Some? ==>
      ParseField(raw).value.expr == raw.attrs[Structures.FindDefault(raw.attrs).value].expr
  {
  }

  /** A parsed input holds every declared field once, the fields with a
      `default` attribute as optional ones, each list in declaration
      order. */
  lemma ParseMeaning(input: StructInputs.DeriveInput)
    requires ParseSpec(input).Ok?
    ensures input.data.NamedStruct?
    ensures forall k :: 0 <= k < |input.data.fields| ==> ParseField(input.data.fields[k]).Ok?
    ensures var si := ParseSpec(input).value;
      var fs := ParsedPrefix(input.data.fields, |input.data.fields|);
      && si.requiredFields == Filter(fs, NoExpr)
      && si.optionalFields == Filter(fs, HasExpr)
      && multiset(si.requiredFields + si.optionalFields) == multiset(fs)
  {
    var raws := input.data.fields;
    PartitionOk(raws, |raws|);
    PartitionMeaning(raws, |raws|);
    FilterSplit(ParsedPrefix(raws, |raws|), NoExpr, HasExpr);
  }

  /** `to_tokens`: `struct <Ident>Builder {}`, a struct with no field
      whose name is the input's name followed by `Builder`. */
  function ToTokens(si: StructureInput): (r: Tokens)
    ensures |r| == 4 && r[0] == "struct" && r[2..] == ["{", "}"]
    ensures |r[1]| == |si.ident| + 7 && r[1][..|si.ident|] == si.ident && r[1][|si.ident|..] == "Builder"
  {
    ["struct", si.ident + "Builder", "{", "}"]
  }

  /** Different structs get differently named builders. */
  lemma BuilderNamesDistinct(a: StructureInput, b: StructureInput)
    requires a.ident != b.ident
    ensures ToTokens(a)[1] != ToTokens(b)[1]
  {
    var x := ToTokens(a)[1];
    var y := ToTokens(b)[1];
    assert x[..|x| - 7] == a.ident;
    assert y[..|y| - 7] == b.ident;
  }
}
