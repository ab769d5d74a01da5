/** The parsed struct of the current generator
    (builder-pattern-macro/src/struct_input.rs): the fields split into
    required and optional ones and sorted by identifier, the slot variables,
    the builder's fields, and the generic parameter lists written into every
    impl header. */
module StructInputs {
  import opened Wrappers
  import opened Seqs
  import opened Idents
  import opened Attributes
  import opened Fields
  import opened TypeState

  /** An attribute on a generic parameter, outer (`#[...]`) or inner. */
  datatype ParamAttr = ParamAttr(outer: bool, tokens: Tokens)

  /** A generic parameter. A lifetime is kept as the tokens of its
      definition (name and bounds); a type parameter's `colon` says whether
      a `:` token was written before its bounds. */
  datatype GenericParam =
    | LifetimeParam(lifetime: string, tokens: Tokens)
    | TypeParam(attrs: seq<ParamAttr>, ident: string, colon: bool, bounds: Tokens, default: Option<Tokens>)
    | ConstParam(attrs: seq<ParamAttr>, ident: string, ty: Tokens, default: Option<Tokens>)

  /** A `where` clause: its predicates, and whether the user ended the list
      with a `,`. */
  datatype WhereClause = WhereClause(predicates: seq<Tokens>, trailingComma: bool)

  /** `Generics`: the parameters and the `where` clause, if there is one. */
  datatype Generics = Generics(params: seq<GenericParam>, whereClause: Option<WhereClause>)

  /** A field as written in the struct declaration. */
  datatype RawField = RawField(attrs: seq<Attribute>, vis: string, ident: Option<string>, ty: string)

  /** The body of the derive input. */
  datatype Data = NamedStruct(fields: seq<RawField>) | TupleStruct | UnitStruct | NotStruct

  datatype DeriveInput = DeriveInput(vis: string, ident: string, generics: Generics, attrs: seq<Attribute>, data: Data)

  datatype StructInput = StructInput(
    vis: string,
    ident: string,
    generics: Generics,
    attrs: seq<Attribute>,
    requiredFields: seq<Field>,
    optionalFields: seq<Field>)

  function FieldIdent(f: Field): string
  {
    f.ident
  }

  /** The field a declaration becomes once its attributes are classified: a
      `public` attribute turns the visibility into `pub`. */
  function MakeField(raw: RawField, ident: string, attrs: FieldAttributes): (f: Field)
    ensures f.ident == ident && f.ty == raw.ty && f.attrs == attrs
    ensures f.vis == (if attrs.vis == Public then "pub" else raw.vis)
  {
    Field(if attrs.vis == Public then "pub" else raw.vis, ident, raw.ty, attrs)
  }

  /** The field built from one declaration, or the generator's failure. */
  function ParseField(raw: RawField): Result<Field>
  {
    match Classify(raw.attrs)
    case Err(e) => Err(e)
    case Ok(attrs) =>
      match raw.ident
      case None => Err("not implemented: Fields must have an identifier!")
      case Some(ident) => Ok(MakeField(raw, ident, attrs))
  }

  predicate HasDefault(f: Field)
  {
    f.attrs.default.Some?
  }

  predicate NoDefault(f: Field)
  {
    f.attrs.default.None?
  }

  /** The two lists after the first `n` declarations, in declaration order. */
  function PartitionPrefix(raws: seq<RawField>, n: nat): Result<(seq<Field>, seq<Field>)>
    requires n <= |raws|
  {
    if n == 0 then Ok(([], []))
    else
      match PartitionPrefix(raws, n - 1)
      case Err(e) => Err(e)
      case Ok(lists) =>
        match ParseField(raws[n - 1])
        case Err(e) => Err(e)
        case Ok(f) =>
          if f.attrs.default.Some? then Ok((lists.0, lists.1 + [f])) else Ok((lists.0 + [f], lists.1))
  }

  /** What `parse` gives: the fields partitioned, then each list sorted by
      identifier. */
  function ParseSpec(input: DeriveInput): Result<StructInput>
  {
    match input.data
    case NamedStruct(raws) =>
      (match PartitionPrefix(raws, |raws|)
       case Err(e) => Err(e)
       case Ok(lists) =>
         Ok(StructInput(input.vis, input.ident, input.generics, input.attrs,
                        SortBy(lists.0, FieldIdent), SortBy(lists.1, FieldIdent))))
    case NotStruct => Err("not implemented: Only structures are supported!")
    case _ => Err("not implemented: Only named structures are supported!")
  }

  /** `Parse for StructInput`: pushes each field onto one of two lists, then
      sorts both. */
  method Parse(input: DeriveInput) returns (r: Result<StructInput>)
    ensures r == ParseSpec(input)
  {
    if !input.data.NamedStruct? {
      if input.data.NotStruct? {
        return Err("not implemented: Only structures are supported!");
      }
      return Err("not implemented: Only named structures are supported!");
    }
    var raws := input.data.fields;
    var optionalFields: seq<Field> := [];
    var requiredFields: seq<Field> := [];
    var i := 0;
    while i < |raws|
      invariant 0 <= i <= |raws|
      invariant PartitionPrefix(raws, i) == Ok((requiredFields, optionalFields))
    {
      var f := ParseField(raws[i]);
      if f.Err? {
        PartitionErrorPersists(raws, i + 1, |raws|);
        return Err(f.error);
      }
      if f.value.attrs.default.Some? {
        optionalFields := optionalFields + [f.value];
      } else {
        requiredFields := requiredFields + [f.value];
      }
      i := i + 1;
    }
    optionalFields := SortBy(optionalFields, FieldIdent);
    requiredFields := SortBy(requiredFields, FieldIdent);
    r := Ok(StructInput(input.vis, input.ident, input.generics, input.attrs, requiredFields, optionalFields));
  }

  lemma {:induction false} PartitionErrorPersists(raws: seq<RawField>, i: nat, n: nat)
    requires i <= n <= |raws|
    requires PartitionPrefix(raws, i).Err?
    ensures PartitionPrefix(raws, n) == PartitionPrefix(raws, i)
  {
    if n > i {
      PartitionErrorPersists(raws, i, n - 1);
    }
  }

  /** The fields the first `n` declarations become, in declaration order. */
  function ParsedPrefix(raws: seq<RawField>, n: nat): seq<Field>
    requires n <= |raws|
    requires forall k :: 0 <= k < n ==> ParseField(raws[k]).Ok?
  {
    if n == 0 then [] else ParsedPrefix(raws, n - 1) + [ParseField(raws[n - 1]).value]
  }

  /** Parsing fails exactly when some declaration fails. */
  lemma {:induction false} PartitionOk(raws: seq<RawField>, n: nat)
    requires n <= |raws|
    ensures PartitionPrefix(raws, n).Ok? <==> forall k :: 0 <= k < n ==> ParseField(raws[k]).Ok?
  {
    if n > 0 {
      PartitionOk(raws, n - 1);
    }
  }

  /** Every field lands in exactly one list: the optional list holds the
      fields with a default, the required list those without, each in
      declaration order. */
  lemma {:induction false} PartitionMeaning(raws: seq<RawField>, n: nat)
    requires n <= |raws|
    requires forall k :: 0 <= k < n ==> ParseField(raws[k]).Ok?
    ensures PartitionPrefix(raws, n).Ok?
    ensures PartitionPrefix(raws, n).value.0 == Filter(ParsedPrefix(raws, n), NoDefault)
    ensures PartitionPrefix(raws, n).value.1 == Filter(ParsedPrefix(raws, n), HasDefault)
  {
    if n > 0 {
      PartitionMeaning(raws, n - 1);
      PartitionStep(raws, n);
      PartitionSnoc(PartitionPrefix(raws, n - 1).value, PartitionPrefix(raws, n).value,
                    ParsedPrefix(raws, n - 1), ParseField(raws[n - 1]).value);
    }
  }

  /** Appending one field to the list keeps the two lists its filters. */
  lemma PartitionSnoc(prev: (seq<Field>, seq<Field>), next: (seq<Field>, seq<Field>), fs: seq<Field>, f: Field)
    requires prev.0 == Filter(fs, NoDefault) && prev.1 == Filter(fs, HasDefault)
    requires HasDefault(f) ==> next.0 == prev.0 && next.1 == prev.1 + [f]
    requires !HasDefault(f) ==> next.0 == prev.0 + [f] && next.1 == prev.1
    ensures next.0 == Filter(fs + [f], NoDefault) && next.1 == Filter(fs + [f], HasDefault)
  {
    FilterSnoc(fs, f, NoDefault);
    FilterSnoc(fs, f, HasDefault);
  }

  lemma PartitionStep(raws: seq<RawField>, n: nat)
    requires 0 < n <= |raws|
    requires PartitionPrefix(raws, n - 1).Ok? && ParseField(raws[n - 1]).Ok?
    ensures PartitionPrefix(raws, n).Ok?
    ensures HasDefault(ParseField(raws[n - 1]).value) ==>
      PartitionPrefix(raws, n).value.0 == PartitionPrefix(raws, n - 1).value.0 &&
      PartitionPrefix(raws, n).value.1 == PartitionPrefix(raws, n - 1).value.1 + [ParseField(raws[n - 1]).value]
    ensures !HasDefault(ParseField(raws[n - 1]).value) ==>
      PartitionPrefix(raws, n).value.0 == PartitionPrefix(raws, n - 1).value.0 + [ParseField(raws[n - 1]).value] &&
      PartitionPrefix(raws, n).value.1 == PartitionPrefix(raws, n - 1).value.1
  {
  }

  /** The parsed lists are sorted by identifier, together hold exactly the
      declared fields, and a field is optional exactly when it has a
      default. */
  lemma ParseSorted(input: DeriveInput)
    requires ParseSpec(input).Ok?
    ensures input.data.NamedStruct?
    ensures forall k :: 0 <= k < |input.data.fields| ==> ParseField(input.data.fields[k]).Ok?
    ensures var si := ParseSpec(input).value;
      && SortedBy(si.requiredFields, FieldIdent)
      && SortedBy(si.optionalFields, FieldIdent)
      && (forall f :: f in si.requiredFields ==> NoDefault(f))
      && (forall f :: f in si.optionalFields ==> HasDefault(f))
      && multiset(si.requiredFields + si.optionalFields) == multiset(ParsedPrefix(input.data.fields, |input.data.fields|))
  {
    var raws := input.data.fields;
    PartitionOk(raws, |raws|);
    PartitionMeaning(raws, |raws|);
    var lists := PartitionPrefix(raws, |raws|).value;
    var fs := ParsedPrefix(raws, |raws|);
    var si := ParseSpec(input).value;
    assert si.requiredFields == SortBy(lists.0, FieldIdent);
    assert si.optionalFields == SortBy(lists.1, FieldIdent);
    SortBySorted(lists.0, FieldIdent);
    SortBySorted(lists.1, FieldIdent);
    FilterSplit(fs, NoDefault, HasDefault);
    assert multiset(si.requiredFields + si.optionalFields) == multiset(lists.0 + lists.1);
    forall f | f in si.requiredFields ensures NoDefault(f) {
      assert f in multiset(lists.0);
    }
    forall f | f in si.optionalFields ensures HasDefault(f) {
      assert f in multiset(lists.1);
    }
  }

  /** Every parsed field carries attributes the classifier produced. */
  lemma {:induction false} ParsedPrefixClassified(raws: seq<RawField>, n: nat)
    requires n <= |raws|
    requires forall k :: 0 <= k < n ==> ParseField(raws[k]).Ok?
    ensures forall f :: f in ParsedPrefix(raws, n) ==> Classified(f.attrs)
  {
    if n > 0 {
      ParsedPrefixClassified(raws, n - 1);
      var f := ParseField(raws[n - 1]).value;
      assert Classify(raws[n - 1].attrs) == Ok(f.attrs);
    }
  }

  /** The fields of a parsed struct, in slot order, all carry classified
      attributes. */
  lemma ParsedFieldsClassified(input: DeriveInput)
    requires ParseSpec(input).Ok?
    ensures forall f :: f in AllFields(ParseSpec(input).value) ==> Classified(f.attrs)
  {
    ParseSorted(input);
    var raws := input.data.fields;
    ParsedPrefixClassified(raws, |raws|);
    var si := ParseSpec(input).value;
    forall f | f in AllFields(si) ensures Classified(f.attrs) {
      assert f in multiset(si.requiredFields + si.optionalFields);
      assert f in ParsedPrefix(raws, |raws|);
    }
  }

  /** `num_fields`. */
  function NumFields(si: StructInput): (n: nat)
    ensures n == |AllFields(si)|
  {
    |si.requiredFields| + |si.optionalFields|
  }

  /** The fields in slot order: required first, then optional. */
  function AllFields(si: StructInput): seq<Field>
  {
    si.requiredFields + si.optionalFields
  }

  /** `builder_name`. */
  function BuilderName(si: StructInput): string
  {
    si.ident + "Builder"
  }

  /** `lifetimes`: the struct's lifetimes without their bounds. */
  function Lifetimes(g: Generics): seq<string>
  {
    Map(Filter(g.params, (p: GenericParam) => p.LifetimeParam?), (p: GenericParam) => if p.LifetimeParam? then p.lifetime else "")
  }

  /** `all_generics`: the slot variables `TyBuilderPattern1..N`. */
  function AllGenerics(si: StructInput): (r: seq<GenName>)
    ensures |r| == NumFields(si)
    ensures forall k :: 0 <= k < |r| ==> r[k] == TyBuilderPattern(k + 1)
  {
    seq(NumFields(si), k requires 0 <= k < NumFields(si) => TyBuilderPattern(k + 1))
  }

  /** The slot variables as header positions. */
  function SlotVars(names: seq<GenName>): (r: seq<Pat>)
    ensures |r| == |names|
    ensures forall k :: 0 <= k < |names| ==> r[k] == Var(names[k])
  {
    Map(names, (n: GenName) => Var(n))
  }

  /** Every slot has its own variable. */
  lemma AllGenericsDistinct(si: StructInput)
    ensures DistinctVars(SlotVars(AllGenerics(si)))
    ensures forall i, j :: 0 <= i < j < NumFields(si) ==> AllGenerics(si)[i] != AllGenerics(si)[j]
  {
  }

  /** A field of the builder: `ident: Option<Setter<'fn_lifetime, ty>>`. */
  datatype BuilderField = BuilderField(ident: string, ty: string)

  /** `builder_fields`: one builder field per struct field, in slot order. */
  function BuilderFields(si: StructInput): (r: seq<BuilderField>)
    ensures |r| == |AllGenerics(si)|
    ensures forall k :: 0 <= k < |r| ==> r[k].ident == AllFields(si)[k].ident && r[k].ty == AllFields(si)[k].ty
  {
    Map(AllFields(si), (f: Field) => BuilderField(f.ident, f.ty))
  }

  // ---- tokenize_types ----

  /** The name `tokenize_types` writes for a parameter, if any. */
  function TypeName(p: GenericParam, infer: seq<string>, omitReplaced: bool): Option<string>
  {
    match p
    case LifetimeParam(_, _) => None
    case TypeParam(_, ident, _, _, _) =>
      if ident in infer then (if omitReplaced then None else Some(AddUnderscore(ident))) else Some(ident)
    case ConstParam(_, ident, _, _) => Some(ident)
  }

  /** The names written for the parameters, in order. */
  function TypeNames(params: seq<GenericParam>, infer: seq<string>, omitReplaced: bool): seq<string>
  {
    if params == [] then []
    else
      var rest := TypeNames(params[..|params| - 1], infer, omitReplaced);
      match TypeName(params[|params| - 1], infer, omitReplaced)
      case None => rest
      case Some(x) => rest + [x]
  }

  /** Every parameter is a lifetime or an inferred type parameter. */
  predicate AllReplaced(params: seq<GenericParam>, infer: seq<string>)
  {
    forall k :: 0 <= k < |params| ==>
      match params[k]
      case TypeParam(_, ident, _, _, _) => ident in infer
      case ConstParam(_, _, _, _) => false
      case LifetimeParam(_, _) => true
  }

  /** What `tokenize_types` writes. */
  function TypesTokens(g: Generics, infer: seq<string>, omitReplaced: bool): Tokens
  {
    if g.params == [] || (omitReplaced && AllReplaced(g.params, infer)) then []
    else Terminated(Singles(TypeNames(g.params, infer, omitReplaced)))
  }

  /** `tokenize_types`: appends each written name and a comma. */
  method TokenizeTypes(g: Generics, infer: seq<string>, omitReplaced: bool) returns (tokens: Tokens)
    ensures tokens == TypesTokens(g, infer, omitReplaced)
  {
    tokens := [];
    var params := g.params;
    if params == [] {
      return;
    }
    if omitReplaced {
      var all := true;
      var j := 0;
      while j < |params|
        invariant 0 <= j <= |params|
        invariant all <==> AllReplaced(params[..j], infer)
      {
        var ok := match params[j]
          case TypeParam(_, ident, _, _, _) => ident in infer
          case ConstParam(_, _, _, _) => false
          case LifetimeParam(_, _) => true;
        assert params[..j + 1][j] == params[j];
        all := all && ok;
        j := j + 1;
      }
      assert params[..j] == params;
      if all {
        return;
      }
    }
    var i := 0;
    while i < |params|
      invariant 0 <= i <= |params|
      invariant tokens == Terminated(Singles(TypeNames(params[..i], infer, omitReplaced)))
    {
      assert params[..i + 1][..i] == params[..i];
      var name := TypeName(params[i], infer, omitReplaced);
      if name.Some? {
        TerminatedAppend(Singles(TypeNames(params[..i], infer, omitReplaced)), [[name.value]]);
        assert Singles(TypeNames(params[..i], infer, omitReplaced) + [name.value]) ==
          Singles(TypeNames(params[..i], infer, omitReplaced)) + [[name.value]];
        tokens := tokens + [name.value, ","];
      }
      i := i + 1;
    }
    assert params[..i] == params;
  }

  /** Whether `tokenize_types` writes anything for a parameter. */
  predicate Emitted(p: GenericParam, infer: seq<string>, omitReplaced: bool)
  {
    !p.LifetimeParam? && !(p.TypeParam? && p.ident in infer && omitReplaced)
  }

  /** The name written for an emitted parameter: inferred type parameters
      get a `_` suffix. */
  function Renamed(p: GenericParam, infer: seq<string>): string
  {
    match p
    case TypeParam(_, ident, _, _, _) => if ident in infer then AddUnderscore(ident) else ident
    case ConstParam(_, ident, _, _) => ident
    case LifetimeParam(_, _) => ""
  }

  /** The written names are the emitted parameters, lifetimes skipped and
      inferred ones dropped (under `omit_replaced`) or renamed, in order. */
  lemma {:induction false} TypeNamesAreFilterMap(params: seq<GenericParam>, infer: seq<string>, omitReplaced: bool)
    ensures TypeNames(params, infer, omitReplaced) ==
      Map(Filter(params, (p: GenericParam) => Emitted(p, infer, omitReplaced)), (p: GenericParam) => Renamed(p, infer))
  {
    if params != [] {
      var emitted := (p: GenericParam) => Emitted(p, infer, omitReplaced);
      var renamed := (p: GenericParam) => Renamed(p, infer);
      var init := params[..|params| - 1];
      var last := params[|params| - 1];
      TypeNamesAreFilterMap(init, infer, omitReplaced);
      assert params == init + [last];
      MapFilterSnoc(init, last, emitted, renamed);
      TypeNameEmitted(last, infer, omitReplaced);
    }
  }

  /** A parameter gets a name exactly when it is emitted, and the name is
      its renamed identifier. */
  lemma TypeNameEmitted(p: GenericParam, infer: seq<string>, omitReplaced: bool)
    ensures TypeName(p, infer, omitReplaced).Some? <==> Emitted(p, infer, omitReplaced)
    ensures TypeName(p, infer, omitReplaced).Some? ==> TypeName(p, infer, omitReplaced).value == Renamed(p, infer)
  {
  }

  /** `tokenize_types` writes nothing when there are no parameters, when
      every written name is omitted, or when the struct has only lifetimes;
      otherwise it writes each name followed by a comma, and ends with a
      comma. */
  lemma TypesTokensShape(g: Generics, infer: seq<string>, omitReplaced: bool)
    ensures TypesTokens(g, infer, omitReplaced) == [] <==>
      g.params == [] || (omitReplaced && AllReplaced(g.params, infer)) || TypeNames(g.params, infer, omitReplaced) == []
    ensures TypesTokens(g, infer, omitReplaced) != [] ==>
      |TypesTokens(g, infer, omitReplaced)| == 2 * |TypeNames(g.params, infer, omitReplaced)|
    ensures TypesTokens(g, infer, omitReplaced) != [] ==>
      forall k :: 0 <= k < |TypeNames(g.params, infer, omitReplaced)| ==>
        && TypesTokens(g, infer, omitReplaced)[2 * k] == TypeNames(g.params, infer, omitReplaced)[k]
        && TypesTokens(g, infer, omitReplaced)[2 * k + 1] == ","
  {
    var names := TypeNames(g.params, infer, omitReplaced);
    TerminatedEmpty(Singles(names));
    if TypesTokens(g, infer, omitReplaced) != [] {
      TerminatedSingles(Singles(names), 0);
      forall k | 0 <= k < |names| ensures
        TypesTokens(g, infer, omitReplaced)[2 * k] == names[k] && TypesTokens(g, infer, omitReplaced)[2 * k + 1] == ","
      {
        TerminatedSingles(Singles(names), k);
      }
      TerminatedSingles(Singles(names), 0);
    }
  }

  /** A struct whose parameters are all lifetimes gives no type tokens at
      all (no stray comma). */
  lemma LifetimesOnlyGiveNoTypes(g: Generics, infer: seq<string>, omitReplaced: bool)
    requires forall k :: 0 <= k < |g.params| ==> g.params[k].LifetimeParam?
    ensures TypesTokens(g, infer, omitReplaced) == []
  {
    TypeNamesAreFilterMap(g.params, infer, omitReplaced);
    FilterNone(g.params, (p: GenericParam) => Emitted(p, infer, omitReplaced));
    TerminatedEmpty(Singles(TypeNames(g.params, infer, omitReplaced)));
  }

  lemma {:induction false} FilterNone<T>(s: seq<T>, p: T -> bool)
    requires forall k :: 0 <= k < |s| ==> !p(s[k])
    ensures Filter(s, p) == []
  {
    if s != [] {
      FilterNone(s[1..], p);
    }
  }

  // ---- tokenize_impl ----

  /** The tokens of the outer attributes of a parameter, in order. */
  function OuterAttrTokens(attrs: seq<ParamAttr>): Tokens
  {
    Concat(Map(Filter(attrs, (a: ParamAttr) => a.outer), (a: ParamAttr) => a.tokens))
  }

  /** A parameter as `tokenize_impl` writes it, defaults left off. */
  function ImplItem(p: GenericParam): Tokens
  {
    match p
    case LifetimeParam(_, tokens) => tokens
    case TypeParam(attrs, ident, colon, bounds, _) =>
      OuterAttrTokens(attrs) + [ident] + (if bounds == [] then [] else (if colon then [":"] else []) + bounds)
    case ConstParam(attrs, ident, ty, _) => OuterAttrTokens(attrs) + ["const", ident, ":"] + ty
  }

  /** Not a type parameter listed in `filter_out`. */
  predicate Kept(p: GenericParam, filterOut: seq<string>)
  {
    !(p.TypeParam? && p.ident in filterOut)
  }

  predicate IsLifetime(p: GenericParam)
  {
    p.LifetimeParam?
  }

  /** The lifetimes, in order. */
  function LifetimeItems(params: seq<GenericParam>): seq<Tokens>
  {
    Map(Filter(params, IsLifetime), ImplItem)
  }

  /** The type and const parameters that are kept, in order. */
  function OtherItems(params: seq<GenericParam>, filterOut: seq<string>): seq<Tokens>
  {
    Map(Filter(params, (p: GenericParam) => !p.LifetimeParam? && Kept(p, filterOut)), ImplItem)
  }

  /** Every parameter is a type parameter listed in `filter_out`. */
  predicate AllFiltered(params: seq<GenericParam>, filterOut: seq<string>)
  {
    forall k :: 0 <= k < |params| ==> params[k].TypeParam? && params[k].ident in filterOut
  }

  /** What `tokenize_impl` writes: lifetimes first, then the kept type and
      const parameters, each followed by a comma. */
  function ImplTokens(g: Generics, filterOut: seq<string>): Tokens
  {
    if g.params == [] || AllFiltered(g.params, filterOut) then []
    else Terminated(LifetimeItems(g.params)) + Terminated(OtherItems(g.params, filterOut))
  }

  /** `tokenize_impl`: two passes over the parameters, the first writing the
      lifetimes, the second the rest. */
  method TokenizeImpl(g: Generics, filterOut: seq<string>) returns (tokens: Tokens)
    ensures tokens == ImplTokens(g, filterOut)
  {
    tokens := [];
    var params := g.params;
    if params == [] {
      return;
    }
    var all := true;
    var j := 0;
    while j < |params|
      invariant 0 <= j <= |params|
      invariant all <==> AllFiltered(params[..j], filterOut)
    {
      assert params[..j + 1][j] == params[j];
      all := all && params[j].TypeParam? && params[j].ident in filterOut;
      j := j + 1;
    }
    assert params[..j] == params;
    if all {
      return;
    }
    var lifetimes := WriteItems(params, IsLifetime);
    var others := WriteItems(params, (p: GenericParam) => !p.LifetimeParam? && Kept(p, filterOut));
    tokens := lifetimes + others;
  }

  /** One pass of `tokenize_impl`: each parameter that passes, written and
      followed by a comma. */
  method WriteItems(params: seq<GenericParam>, pass: GenericParam -> bool) returns (tokens: Tokens)
    ensures tokens == Terminated(Map(Filter(params, pass), ImplItem))
  {
    tokens := [];
    var i := 0;
    while i < |params|
      invariant 0 <= i <= |params|
      invariant tokens == Terminated(Map(Filter(params[..i], pass), ImplItem))
    {
      StepItems(params, i, pass);
      if pass(params[i]) {
        tokens := tokens + ImplItem(params[i]) + [","];
      }
      i := i + 1;
    }
    assert params[..i] == params;
  }

  /** One more parameter adds its item and a comma exactly when it passes. */
  lemma StepItems(params: seq<GenericParam>, i: nat, p: GenericParam -> bool)
    requires i < |params|
    ensures Terminated(Map(Filter(params[..i + 1], p), ImplItem)) ==
      Terminated(Map(Filter(params[..i], p), ImplItem)) + (if p(params[i]) then ImplItem(params[i]) + [","] else [])
  {
    assert params[..i + 1] == params[..i] + [params[i]];
    FilterAppend(params[..i], [params[i]], p);
    MapAppend(Filter(params[..i], p), Filter([params[i]], p), ImplItem);
    TerminatedAppend(Map(Filter(params[..i], p), ImplItem), Map(Filter([params[i]], p), ImplItem));
    if p(params[i]) {
      assert Terminated([ImplItem(params[i])]) == ImplItem(params[i]) + [","];
    }
  }

  /** `tokenize_impl` writes nothing exactly when there are no parameters or
      every parameter is a filtered type parameter; otherwise its output ends
      with a comma. */
  lemma ImplTokensShape(g: Generics, filterOut: seq<string>)
    ensures ImplTokens(g, filterOut) == [] <==> g.params == [] || AllFiltered(g.params, filterOut)
    ensures ImplTokens(g, filterOut) != [] ==> ImplTokens(g, filterOut)[|ImplTokens(g, filterOut)| - 1] == ","
    ensures ImplTokens(g, filterOut) != [] ==>
      ImplTokens(g, filterOut) == Terminated(LifetimeItems(g.params) + OtherItems(g.params, filterOut))
  {
    var ls := LifetimeItems(g.params);
    var os := OtherItems(g.params, filterOut);
    TerminatedAppend(ls, os);
    if !(g.params == [] || AllFiltered(g.params, filterOut)) {
      var k :| 0 <= k < |g.params| && !(g.params[k].TypeParam? && g.params[k].ident in filterOut);
      if g.params[k].LifetimeParam? {
        FilterKeeps(g.params, IsLifetime, k);
      } else {
        FilterKeeps(g.params, (p: GenericParam) => !p.LifetimeParam? && Kept(p, filterOut), k);
      }
      assert ls + os != [];
      TerminatedEndsWithComma(ls + os);
    }
  }

  /** An element that passes the filter is in the filtered sequence. */
  lemma {:induction false} FilterKeeps<T>(s: seq<T>, p: T -> bool, k: nat)
    requires k < |s| && p(s[k])
    ensures Filter(s, p) != []
  {
    if k > 0 {
      FilterKeeps(s[1..], p, k - 1);
      FilterAppend([s[0]], s[1..], p);
      assert s == [s[0]] + s[1..];
    }
  }

  // ---- defaulted_generics and setter_where_clause ----

  /** `defaulted_generics`: the type parameters with a default, in order. */
  function DefaultedGenerics(g: Generics): (r: seq<string>)
    ensures forall x :: x in r <==>
      exists k :: 0 <= k < |g.params| && g.params[k].TypeParam? && g.params[k].default.Some? && g.params[k].ident == x
  {
    var r := Map(Filter(g.params, (p: GenericParam) => p.TypeParam? && p.default.Some?), (p: GenericParam) => if p.TypeParam? then p.ident else "");
    assert forall x :: x in r ==> exists k :: 0 <= k < |g.params| && g.params[k].TypeParam? && g.params[k].default.Some? && g.params[k].ident == x by {
      forall x | x in r ensures exists k :: 0 <= k < |g.params| && g.params[k].TypeParam? && g.params[k].default.Some? && g.params[k].ident == x {
        var i :| 0 <= i < |r| && r[i] == x;
        var p := Filter(g.params, (p: GenericParam) => p.TypeParam? && p.default.Some?)[i];
        assert p in g.params;
      }
    }
    assert forall k :: 0 <= k < |g.params| && g.params[k].TypeParam? && g.params[k].default.Some? ==> g.params[k].ident in r by {
      forall k | 0 <= k < |g.params| && g.params[k].TypeParam? && g.params[k].default.Some? ensures g.params[k].ident in r {
        FilterMember(g.params, (p: GenericParam) => p.TypeParam? && p.default.Some?, k);
      }
    }
    r
  }

  /** An element that passes the filter is a member of the result. */
  lemma {:induction false} FilterMember<T>(s: seq<T>, p: T -> bool, k: nat)
    requires k < |s| && p(s[k])
    ensures s[k] in Filter(s, p)
  {
    if k > 0 {
      FilterMember(s[1..], p, k - 1);
      assert s[1..][k - 1] == s[k];
    }
  }

  /** The `where` clause predicates, or none. */
  function WherePredicates(g: Generics): seq<Tokens>
  {
    if g.whereClause.Some? then g.whereClause.value.predicates else []
  }

  /** What `setter_where_clause` writes; `replace` is
      `replace_type_params_in` with the renaming of inferred parameters,
      whose body is not part of this model. */
  function SetterWhereTokens(g: Generics, infer: seq<string>, replace: (Tokens, seq<string>) -> Tokens): Tokens
  {
    if infer == [] then []
    else ["where"] + Terminated(Map(WherePredicates(g), (pred: Tokens) => replace(pred, infer)))
  }

  /** `setter_where_clause`: `where` and each rewritten predicate followed by
      a comma. */
  method SetterWhereClause(g: Generics, infer: seq<string>, replace: (Tokens, seq<string>) -> Tokens) returns (stream: Tokens)
    ensures stream == SetterWhereTokens(g, infer, replace)
  {
    stream := [];
    if infer == [] {
      return;
    }
    stream := stream + ["where"];
    var preds := WherePredicates(g);
    var f := (pred: Tokens) => replace(pred, infer);
    var i := 0;
    while i < |preds|
      invariant 0 <= i <= |preds|
      invariant stream == ["where"] + Terminated(Map(preds[..i], f))
    {
      var item := f(preds[i]);
      ghost var done := Terminated(Map(preds[..i], f));
      TerminatedMapStep(preds, i, f);
      stream := stream + item + [","];
      assert stream == ["where"] + (done + (item + [","]));
      i := i + 1;
    }
    assert preds[..i] == preds;
  }

  /** One more item of a mapped list adds that item and a comma. */
  lemma TerminatedMapStep<T>(s: seq<T>, i: nat, f: T -> Tokens)
    requires i < |s|
    ensures Terminated(Map(s[..i + 1], f)) == Terminated(Map(s[..i], f)) + (f(s[i]) + [","])
  {
    assert s[..i + 1] == s[..i] + [s[i]];
    TerminatedMapSnoc(s[..i], s[i], f);
  }

  /** The setter `where` clause is empty exactly when nothing is inferred,
      and otherwise starts with `where`. */
  lemma SetterWhereEmpty(g: Generics, infer: seq<string>, replace: (Tokens, seq<string>) -> Tokens)
    ensures SetterWhereTokens(g, infer, replace) == [] <==> infer == []
    ensures infer != [] ==> SetterWhereTokens(g, infer, replace)[0] == "where"
  {
  }
}
