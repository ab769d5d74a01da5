/** Field attributes of the current generator
    (builder-pattern-macro/src/attributes.rs): the `Setters` flags, the
    defaults of an unannotated field, and the fold of a field's attribute list
    into one record, which fails on duplicated or unsupported attributes and on
    `hidden` without a default. A failure of the generator (`unimplemented!`,
    or `unwrap` on a failed parse) is an `Err` carrying its message. */
module Attributes {
  import opened Wrappers
  import Seqs

  /** The bits of `Setters`: VALUE = 0b001, LAZY = 0b010, ASYNC = 0b100. */
  datatype Flag = VALUE | LAZY | ASYNC

  /** A `Setters` bit set, as the set of its flags. */
  type Setters = set<Flag>

  datatype FieldVisibility = Public | Hidden | Default

  /** `default: Option<(Expr, Setters)>`: the default expression and whether
      it is a value (`VALUE`) or a producer (`LAZY`). */
  datatype DefaultRule = DefaultRule(expr: string, kind: Setters)

  datatype FieldAttributes = FieldAttributes(
    default: Option<DefaultRule>,
    useInto: bool,
    validator: Option<string>,
    documents: seq<Attribute>,
    setters: Setters,
    vis: FieldVisibility,
    lateBoundDefault: bool,
    useInferred: seq<string>,
    infer: seq<string>)

  /** A path such as `default` or `core::marker::PhantomData`. */
  datatype Path = Path(segments: seq<string>)

  /** An item of a meta list: a bare path, or anything else (a literal, a
      nested list, a name-value pair). */
  datatype NestedMeta = MetaPath(path: Path) | MetaOther

  /** `Meta::Path`, `Meta::List` or `Meta::NameValue`. */
  datatype Meta = MetaWord | MetaList(nested: seq<NestedMeta>) | MetaNameValue

  /** An outer attribute `#[path ...]`: its path, what `parse_meta` gives
      (`None` if it fails) and what `parse_args::<Expr>` gives (`None` if the
      arguments are not one expression). */
  datatype Attribute = Attribute(path: Path, meta: Option<Meta>, expr: Option<string>)

  /** `Path::is_ident`. */
  predicate IsIdent(p: Path, name: string)
  {
    p.segments == [name]
  }

  /** `Path::get_ident`. */
  function GetIdent(p: Path): Option<string>
  {
    if |p.segments| == 1 then Some(p.segments[0]) else None
  }

  predicate IsDoc(a: Attribute)
  {
    IsIdent(a.path, "doc")
  }

  /** `ident_add_underscore`: the identifier of the renamed (inferred) type
      parameter. */
  function AddUnderscore(ident: string): (r: string)
    ensures |r| == |ident| + 1 && r[..|ident|] == ident && r[|ident|] == '_'
  {
    ident + "_"
  }

  /** Renaming never captures: different identifiers stay different, and a
      renamed identifier differs from the original. */
  lemma AddUnderscoreInjective(a: string, b: string)
    ensures AddUnderscore(a) == AddUnderscore(b) <==> a == b
    ensures AddUnderscore(a) != a
  {
    if AddUnderscore(a) == AddUnderscore(b) {
      assert a == AddUnderscore(a)[..|a|];
      assert |a| == |b|;
      assert b == AddUnderscore(b)[..|b|];
    }
    assert |AddUnderscore(a)| != |a|;
  }

  /** `FieldAttributes::default()`. */
  const DefaultAttributes := FieldAttributes(None, false, None, [], {VALUE}, Default, false, [], [])

  /** Which branch of the attribute dispatch an attribute takes. */
  datatype Kind =
    | KDefault | KDefaultLazy | KDefaultAsync | KHidden | KPublic | KInto | KValidator
    | KDoc | KSetter | KInfer | KUseInferred | KLateBound | KOther

  function KindOf(a: Attribute): Kind
  {
    if IsIdent(a.path, "default") then KDefault
    else if IsIdent(a.path, "default_lazy") then KDefaultLazy
    else if IsIdent(a.path, "default_async") then KDefaultAsync
    else if IsIdent(a.path, "hidden") then KHidden
    else if IsIdent(a.path, "public") then KPublic
    else if IsIdent(a.path, "into") then KInto
    else if IsIdent(a.path, "validator") then KValidator
    else if IsIdent(a.path, "doc") then KDoc
    else if IsIdent(a.path, "setter") then KSetter
    else if IsIdent(a.path, "infer") then KInfer
    else if IsIdent(a.path, "use_inferred") then KUseInferred
    else if IsIdent(a.path, "late_bound_default") then KLateBound
    else KOther
  }

  predicate IsDefaultFamily(k: Kind)
  {
    k == KDefault || k == KDefaultLazy || k == KDefaultAsync
  }

  /** `parse_default` / `parse_lazy_default`: the argument must parse as an
      expression. */
  function ParseDefault(a: Attribute, kind: Flag): Result<DefaultRule>
  {
    match a.expr
    case Some(e) => Ok(DefaultRule(e, {kind}))
    case None => Err("not implemented: Invalid default value.")
  }

  /** `parse_validator`. */
  function ParseValidator(a: Attribute): Result<string>
  {
    match a.expr
    case Some(e) => Ok(e)
    case None => Err("not implemented: Invalid validator.")
  }

  /** The text `setter(...)` uses for each flag. */
  function FlagName(f: Flag): string
  {
    match f
    case VALUE => "value"
    case LAZY => "lazy"
    case ASYNC => "async"
  }

  /** The flags named by the first `n` items of a `setter(...)` list, or the
      error of the first item that is not a path. */
  function SettersPrefix(items: seq<NestedMeta>, n: nat): Result<Setters>
    requires n <= |items|
  {
    if n == 0 then Ok({})
    else
      match SettersPrefix(items, n - 1)
      case Err(e) => Err(e)
      case Ok(s) =>
        match items[n - 1]
        case MetaOther => Err("not implemented: Invalid setter.")
        case MetaPath(p) =>
          if IsIdent(p, "value") then Ok(s + {VALUE})
          else if IsIdent(p, "lazy") then Ok(s + {LAZY})
          else if IsIdent(p, "async") then Ok(s + {ASYNC})
          else Ok(s)
  }

  const MetaUnwrapPanic := "called `Result::unwrap()` on an `Err` value"

  /** What `parse_setters` gives for an attribute. */
  function SettersSpec(a: Attribute): Result<Setters>
  {
    match a.meta
    case None => Err(MetaUnwrapPanic)
    case Some(MetaList(items)) => SettersPrefix(items, |items|)
    case Some(_) => Err("not implemented: Invalid setter.")
  }

  /** `parse_setters`: collects the flags named in the list into an empty set. */
  method ParseSetters(a: Attribute) returns (r: Result<Setters>)
    ensures r == SettersSpec(a)
  {
    if a.meta.None? {
      return Err(MetaUnwrapPanic);
    }
    match a.meta.value {
      case MetaList(items) =>
        var setters: Setters := {};
        var i := 0;
        while i < |items|
          invariant 0 <= i <= |items|
          invariant SettersPrefix(items, i) == Ok(setters)
        {
          match items[i] {
            case MetaOther =>
              r := Err("not implemented: Invalid setter.");
              assert SettersPrefix(items, i + 1) == r;
              ErrorPersists(items, i + 1, |items|);
              return;
            case MetaPath(p) =>
              if IsIdent(p, "value") {
                setters := setters + {VALUE};
              } else if IsIdent(p, "lazy") {
                setters := setters + {LAZY};
              } else if IsIdent(p, "async") {
                setters := setters + {ASYNC};
              }
          }
          i := i + 1;
        }
        r := Ok(setters);
      case _ =>
        r := Err("not implemented: Invalid setter.");
    }
  }

  lemma {:induction false} ErrorPersists(items: seq<NestedMeta>, i: nat, n: nat)
    requires i <= n <= |items|
    requires SettersPrefix(items, i).Err?
    ensures SettersPrefix(items, n) == SettersPrefix(items, i)
  {
    if n > i {
      ErrorPersists(items, i, n - 1);
    }
  }

  /** `setter(...)` succeeds exactly when every item is a path, and then gives
      exactly the flags whose names are listed; other paths are ignored, so
      VALUE is present only when `value` is listed. */
  lemma {:induction false} SettersPrefixMeaning(items: seq<NestedMeta>, n: nat)
    requires n <= |items|
    ensures SettersPrefix(items, n).Ok? <==> forall k :: 0 <= k < n ==> items[k].MetaPath?
    ensures SettersPrefix(items, n).Ok? ==> forall f ::
      f in SettersPrefix(items, n).value <==> exists k :: 0 <= k < n && items[k] == MetaPath(Path([FlagName(f)]))
  {
    if n > 0 {
      SettersPrefixMeaning(items, n - 1);
      if SettersPrefix(items, n).Ok? {
        var s := SettersPrefix(items, n).value;
        forall f ensures f in s <==> exists k :: 0 <= k < n && items[k] == MetaPath(Path([FlagName(f)])) {
          if items[n - 1] == MetaPath(Path([FlagName(f)])) {
            assert f in s;
          }
          if f in s && f !in SettersPrefix(items, n - 1).value {
            assert items[n - 1] == MetaPath(Path([FlagName(f)]));
          }
        }
      }
    }
  }

  /** The identifiers of the first `n` items of an `infer(...)` or
      `use_inferred(...)` list, or the error of the first bad item. */
  function IdentsPrefix(items: seq<NestedMeta>, n: nat, pathError: string): Result<seq<string>>
    requires n <= |items|
  {
    if n == 0 then Ok([])
    else
      match IdentsPrefix(items, n - 1, pathError)
      case Err(e) => Err(e)
      case Ok(s) =>
        match items[n - 1]
        case MetaOther => Err("not implemented: Invalid setter.")
        case MetaPath(p) =>
          match GetIdent(p)
          case Some(i) => Ok(s + [i])
          case None => Err(pathError)
  }

  function IdentsSpec(a: Attribute, pathError: string): Result<seq<string>>
  {
    match a.meta
    case None => Err(MetaUnwrapPanic)
    case Some(MetaList(items)) => IdentsPrefix(items, |items|, pathError)
    case Some(_) => Err("not implemented: Invalid setter.")
  }

  const InferError := "not implemented: Invalid infer, write a type parameter."
  const UseInferredError := "not implemented: Invalid use_infer, write a type parameter."

  /** The loop shared by `parse_infer` and `parse_use_inferred`. */
  method ParseIdents(a: Attribute, pathError: string) returns (r: Result<seq<string>>)
    ensures r == IdentsSpec(a, pathError)
  {
    if a.meta.None? {
      return Err(MetaUnwrapPanic);
    }
    match a.meta.value {
      case MetaList(items) =>
        var params: seq<string> := [];
        var i := 0;
        while i < |items|
          invariant 0 <= i <= |items|
          invariant IdentsPrefix(items, i, pathError) == Ok(params)
        {
          match items[i] {
            case MetaOther =>
              r := Err("not implemented: Invalid setter.");
              IdentsErrorPersists(items, i + 1, |items|, pathError);
              return;
            case MetaPath(p) =>
              match GetIdent(p) {
                case Some(ident) =>
                  params := params + [ident];
                case None =>
                  r := Err(pathError);
                  IdentsErrorPersists(items, i + 1, |items|, pathError);
                  return;
              }
          }
          i := i + 1;
        }
        r := Ok(params);
      case _ =>
        r := Err("not implemented: Invalid setter.");
    }
  }

  lemma {:induction false} IdentsErrorPersists(items: seq<NestedMeta>, i: nat, n: nat, pathError: string)
    requires i <= n <= |items|
    requires IdentsPrefix(items, i, pathError).Err?
    ensures IdentsPrefix(items, n, pathError) == IdentsPrefix(items, i, pathError)
  {
    if n > i {
      IdentsErrorPersists(items, i, n - 1, pathError);
    }
  }

  /** `infer(...)` records the listed identifiers in order, and fails as soon
      as an item is not a single identifier. */
  lemma {:induction false} IdentsPrefixMeaning(items: seq<NestedMeta>, n: nat, pathError: string)
    requires n <= |items|
    ensures IdentsPrefix(items, n, pathError).Ok? <==>
      forall k :: 0 <= k < n ==> items[k].MetaPath? && |items[k].path.segments| == 1
    ensures IdentsPrefix(items, n, pathError).Ok? ==>
      |IdentsPrefix(items, n, pathError).value| == n &&
      forall k :: 0 <= k < n ==> IdentsPrefix(items, n, pathError).value[k] == items[k].path.segments[0]
  {
    if n > 0 {
      IdentsPrefixMeaning(items, n - 1, pathError);
    }
  }

  /** `parse_infer`. */
  method ParseInfer(a: Attribute) returns (r: Result<seq<string>>)
    ensures r == IdentsSpec(a, InferError)
  {
    r := ParseIdents(a, InferError);
  }

  /** `parse_use_inferred`. */
  method ParseUseInferred(a: Attribute) returns (r: Result<seq<string>>)
    ensures r == IdentsSpec(a, UseInferredError)
  {
    r := ParseIdents(a, UseInferredError);
  }

  /** `get_documents`: the `doc` attributes, in order. */
  method GetDocuments(attrs: seq<Attribute>) returns (documents: seq<Attribute>)
    ensures documents == Seqs.Filter(attrs, IsDoc)
  {
    documents := [];
    var i := 0;
    while i < |attrs|
      invariant 0 <= i <= |attrs|
      invariant documents == Seqs.Filter(attrs[..i], IsDoc)
    {
      Seqs.FilterAppend(attrs[..i], [attrs[i]], IsDoc);
      assert attrs[..i + 1] == attrs[..i] + [attrs[i]];
      if IsDoc(attrs[i]) {
        documents := documents + [attrs[i]];
      }
      i := i + 1;
    }
    assert attrs[..i] == attrs;
  }

  /** The `unimplemented!` texts of the `for_each` closure. */
  const DuplicatedDefault := "not implemented: Duplicated `default` attributes."
  const AsyncDefault := "not implemented: Asynchronous default is not implemented yet."
  const DuplicatedHidden := "not implemented: Duplicated `hidden` attributes."
  const DuplicatedPublic := "not implemented: Duplicated `public` attributes."

  /** One step of the `for_each` in `From<Vec<Attribute>>`; `all` is the
      whole list, which `doc` reads. */
  function Step(all: seq<Attribute>, a: Attribute, acc: FieldAttributes): Result<FieldAttributes>
  {
    match KindOf(a)
    case KDefault =>
      if acc.default.Some? then Err(DuplicatedDefault)
      else (match ParseDefault(a, VALUE) case Ok(d) => Ok(acc.(default := Some(d))) case Err(e) => Err(e))
    case KDefaultLazy =>
      if acc.default.Some? then Err(DuplicatedDefault)
      else (match ParseDefault(a, LAZY) case Ok(d) => Ok(acc.(default := Some(d))) case Err(e) => Err(e))
    case KDefaultAsync =>
      if acc.default.Some? then Err(DuplicatedDefault)
      else Err(AsyncDefault)
    case KHidden =>
      if acc.vis != Default then Err(DuplicatedHidden)
      else Ok(acc.(vis := Hidden, lateBoundDefault := true))
    case KPublic =>
      if acc.vis != Default then Err(DuplicatedPublic)
      else Ok(acc.(vis := Public))
    case KInto => Ok(acc.(useInto := true))
    case KValidator =>
      (match ParseValidator(a) case Ok(v) => Ok(acc.(validator := Some(v))) case Err(e) => Err(e))
    case KDoc => Ok(acc.(documents := Seqs.Filter(all, IsDoc)))
    case KSetter =>
      (match SettersSpec(a) case Ok(s) => Ok(acc.(setters := s)) case Err(e) => Err(e))
    case KInfer =>
      (match IdentsSpec(a, InferError) case Ok(s) => Ok(acc.(infer := s)) case Err(e) => Err(e))
    case KUseInferred =>
      (match IdentsSpec(a, UseInferredError) case Ok(s) => Ok(acc.(useInferred := s)) case Err(e) => Err(e))
    case KLateBound => Ok(acc.(lateBoundDefault := true))
    case KOther => Ok(acc)
  }

  /** The record after folding the first `n` attributes. */
  function FoldPrefix(all: seq<Attribute>, n: nat): Result<FieldAttributes>
    requires n <= |all|
  {
    if n == 0 then Ok(DefaultAttributes)
    else
      match FoldPrefix(all, n - 1)
      case Err(e) => Err(e)
      case Ok(acc) => Step(all, all[n - 1], acc)
  }

  /** `FieldAttributes::validate`: a hidden field needs a default. */
  function Validate(a: FieldAttributes): (r: Result<()>)
    ensures r.Err? <==> a.vis == Hidden && a.default.None?
  {
    if a.vis == Hidden && a.default.None? then
      Err("`hidden` attribute requires `default` attribute.")
    else Ok(())
  }

  /** `FieldAttributes::from(attrs)`: the fold, then validation, whose
      error `unimplemented!("{}", e)` reports. */
  function Classify(attrs: seq<Attribute>): (r: Result<FieldAttributes>)
    ensures r.Ok? ==> !(r.value.vis == Hidden && r.value.default.None?)
  {
    match FoldPrefix(attrs, |attrs|)
    case Err(e) => Err(e)
    case Ok(a) => (match Validate(a) case Err(e) => Err("not implemented: " + e) case Ok(_) => Ok(a))
  }

  /** An accepted record is the one the fold computed. */
  lemma ClassifiedIsFold(attrs: seq<Attribute>)
    requires Classify(attrs).Ok?
    ensures FoldPrefix(attrs, |attrs|) == Classify(attrs)
  {
  }

  /** The body of the `for_each` closure in `From<Vec<Attribute>>`: one
      attribute applied to the record built so far. */
  method ApplyAttribute(attrs: seq<Attribute>, attr: Attribute, attributes: FieldAttributes) returns (next: Result<FieldAttributes>)
    ensures next == Step(attrs, attr, attributes)
  {
    var kind := KindOf(attr);
    if kind == KDoc {
      var docs := GetDocuments(attrs);
      next := Ok(attributes.(documents := docs));
    } else if kind == KSetter {
      var s := ParseSetters(attr);
      next := if s.Ok? then Ok(attributes.(setters := s.value)) else Err(s.error);
    } else if kind == KInfer {
      var s := ParseInfer(attr);
      next := if s.Ok? then Ok(attributes.(infer := s.value)) else Err(s.error);
    } else if kind == KUseInferred {
      var s := ParseUseInferred(attr);
      next := if s.Ok? then Ok(attributes.(useInferred := s.value)) else Err(s.error);
    } else {
      next := Step(attrs, attr, attributes);
    }
  }

  /** `From<Vec<Attribute>> for FieldAttributes`: folds the attributes in
      order, stopping at the first failure, then validates. */
  method FromAttributes(attrs: seq<Attribute>) returns (r: Result<FieldAttributes>)
    ensures r == Classify(attrs)
  {
    var attributes := DefaultAttributes;
    var i := 0;
    while i < |attrs|
      invariant 0 <= i <= |attrs|
      invariant FoldPrefix(attrs, i) == Ok(attributes)
    {
      var next := ApplyAttribute(attrs, attrs[i], attributes);
      if next.Err? {
        FoldErrorPersists(attrs, i + 1, |attrs|);
        return Err(next.error);
      }
      attributes := next.value;
      i := i + 1;
    }
    match Validate(attributes) {
      case Err(e) => r := Err("not implemented: " + e);
      case Ok(_) => r := Ok(attributes);
    }
  }

  lemma {:induction false} FoldErrorPersists(all: seq<Attribute>, i: nat, n: nat)
    requires i <= n <= |all|
    requires FoldPrefix(all, i).Err?
    ensures FoldPrefix(all, n) == FoldPrefix(all, i)
  {
    if n > i {
      FoldErrorPersists(all, i, n - 1);
    }
  }

  lemma {:induction false} FoldOkPrefix(all: seq<Attribute>, i: nat, n: nat)
    requires i <= n <= |all|
    requires FoldPrefix(all, n).Ok?
    ensures FoldPrefix(all, i).Ok?
  {
    if FoldPrefix(all, i).Err? {
      FoldErrorPersists(all, i, n);
    }
  }

  /** The index of the last attribute of kind `k` among the first `n`. */
  function LastIndex(all: seq<Attribute>, n: nat, k: Kind): (r: Option<nat>)
    requires n <= |all|
    ensures r.Some? ==> r.value < n && KindOf(all[r.value]) == k
    ensures r.Some? ==> forall j :: r.value < j < n ==> KindOf(all[j]) != k
    ensures r.None? <==> forall j :: 0 <= j < n ==> KindOf(all[j]) != k
  {
    if n == 0 then None
    else if KindOf(all[n - 1]) == k then Some(n - 1)
    else LastIndex(all, n - 1, k)
  }

  /** An attribute of kind `k` occurs among the first `n`. */
  predicate Has(all: seq<Attribute>, n: nat, k: Kind)
    requires n <= |all|
  {
    LastIndex(all, n, k).Some?
  }

  /** What one successful step does to the flags and the visibility. */
  lemma StepFlags(all: seq<Attribute>, x: Attribute, acc: FieldAttributes)
    requires Step(all, x, acc).Ok?
    ensures Step(all, x, acc).value.useInto == (acc.useInto || KindOf(x) == KInto)
    ensures Step(all, x, acc).value.lateBoundDefault ==
      (acc.lateBoundDefault || KindOf(x) == KLateBound || KindOf(x) == KHidden)
    ensures Step(all, x, acc).value.vis ==
      (if KindOf(x) == KHidden then Hidden else if KindOf(x) == KPublic then Public else acc.vis)
    ensures KindOf(x) in {KHidden, KPublic} ==> acc.vis == Default
  {
  }

  /** What one successful step does to the default rule. */
  lemma StepDefault(all: seq<Attribute>, x: Attribute, acc: FieldAttributes)
    requires Step(all, x, acc).Ok?
    ensures KindOf(x) != KDefaultAsync
    ensures KindOf(x) == KDefault ==>
      acc.default.None? && x.expr.Some? && Step(all, x, acc).value.default == Some(DefaultRule(x.expr.value, {VALUE}))
    ensures KindOf(x) == KDefaultLazy ==>
      acc.default.None? && x.expr.Some? && Step(all, x, acc).value.default == Some(DefaultRule(x.expr.value, {LAZY}))
    ensures !IsDefaultFamily(KindOf(x)) ==> Step(all, x, acc).value.default == acc.default
  {
  }

  /** A step never undoes an earlier one: an attribute the classifier does
      not know leaves the record as it is, and once a default or a
      visibility is recorded, or `into` or late binding is switched on, every
      later successful step keeps it. */
  lemma StepKeeps(all: seq<Attribute>, x: Attribute, acc: FieldAttributes)
    ensures KindOf(x) == KOther ==> Step(all, x, acc) == Ok(acc)
    ensures Step(all, x, acc).Ok? && acc.default.Some? ==> Step(all, x, acc).value.default == acc.default
    ensures Step(all, x, acc).Ok? && acc.vis != Default ==> Step(all, x, acc).value.vis == acc.vis
    ensures Step(all, x, acc).Ok? ==>
      (acc.useInto ==> Step(all, x, acc).value.useInto) && (acc.lateBoundDefault ==> Step(all, x, acc).value.lateBoundDefault)
  {
  }

  /** What one successful step does to the setters. */
  lemma StepSetters(all: seq<Attribute>, x: Attribute, acc: FieldAttributes)
    requires Step(all, x, acc).Ok?
    ensures KindOf(x) == KSetter ==> SettersSpec(x) == Ok(Step(all, x, acc).value.setters)
    ensures KindOf(x) != KSetter ==> Step(all, x, acc).value.setters == acc.setters
  {
  }

  /** What one successful step does to the `infer` list. */
  lemma StepInfer(all: seq<Attribute>, x: Attribute, acc: FieldAttributes)
    requires Step(all, x, acc).Ok?
    ensures KindOf(x) == KInfer ==> IdentsSpec(x, InferError) == Ok(Step(all, x, acc).value.infer)
    ensures KindOf(x) != KInfer ==> Step(all, x, acc).value.infer == acc.infer
  {
  }

  /** What one successful step does to the validator. */
  lemma StepValidator(all: seq<Attribute>, x: Attribute, acc: FieldAttributes)
    requires Step(all, x, acc).Ok?
    ensures KindOf(x) == KValidator ==> x.expr.Some? && Step(all, x, acc).value.validator == x.expr
    ensures KindOf(x) != KValidator ==> Step(all, x, acc).value.validator == acc.validator
  {
  }

  /** What one successful step does to the documents. */
  lemma StepDocuments(all: seq<Attribute>, x: Attribute, acc: FieldAttributes)
    requires Step(all, x, acc).Ok?
    ensures KindOf(x) == KDoc ==> Step(all, x, acc).value.documents == Seqs.Filter(all, IsDoc)
    ensures KindOf(x) != KDoc ==> Step(all, x, acc).value.documents == acc.documents
  {
  }

  /** `into`, `late_bound_default` and the visibility attributes: each flag
      is set exactly when its attribute (or, for late binding, `hidden`)
      occurs. */
  lemma {:induction false} FoldFlags(all: seq<Attribute>, n: nat)
    requires n <= |all|
    requires FoldPrefix(all, n).Ok?
    ensures FoldPrefix(all, n).value.useInto <==> Has(all, n, KInto)
    ensures FoldPrefix(all, n).value.lateBoundDefault <==> Has(all, n, KLateBound) || Has(all, n, KHidden)
    ensures FoldPrefix(all, n).value.vis == Hidden <==> Has(all, n, KHidden)
    ensures FoldPrefix(all, n).value.vis == Public <==> Has(all, n, KPublic)
  {
    if n > 0 {
      FoldOkPrefix(all, n - 1, n);
      FoldFlags(all, n - 1);
      StepFlags(all, all[n - 1], FoldPrefix(all, n - 1).value);
    }
  }

  /** The default rule is the one of the single `default`/`default_lazy`
      attribute, tagged VALUE or LAZY; `default_async` never survives. */
  lemma {:induction false} FoldDefault(all: seq<Attribute>, n: nat)
    requires n <= |all|
    requires FoldPrefix(all, n).Ok?
    ensures !Has(all, n, KDefaultAsync)
    ensures FoldPrefix(all, n).value.default.Some? <==> Has(all, n, KDefault) || Has(all, n, KDefaultLazy)
    ensures forall j :: 0 <= j < n && KindOf(all[j]) == KDefault ==>
      all[j].expr.Some? && FoldPrefix(all, n).value.default == Some(DefaultRule(all[j].expr.value, {VALUE}))
    ensures forall j :: 0 <= j < n && KindOf(all[j]) == KDefaultLazy ==>
      all[j].expr.Some? && FoldPrefix(all, n).value.default == Some(DefaultRule(all[j].expr.value, {LAZY}))
  {
    FoldDefaultPresence(all, n);
    FoldDefaultRule(all, n);
  }

  lemma {:induction false} FoldDefaultPresence(all: seq<Attribute>, n: nat)
    requires n <= |all|
    requires FoldPrefix(all, n).Ok?
    ensures !Has(all, n, KDefaultAsync)
    ensures FoldPrefix(all, n).value.default.Some? <==> Has(all, n, KDefault) || Has(all, n, KDefaultLazy)
  {
    if n > 0 {
      FoldOkPrefix(all, n - 1, n);
      FoldDefaultPresence(all, n - 1);
      StepDefault(all, all[n - 1], FoldPrefix(all, n - 1).value);
    }
  }

  lemma {:induction false} FoldDefaultRule(all: seq<Attribute>, n: nat)
    requires n <= |all|
    requires FoldPrefix(all, n).Ok?
    ensures forall j :: 0 <= j < n && KindOf(all[j]) == KDefault ==>
      all[j].expr.Some? && FoldPrefix(all, n).value.default == Some(DefaultRule(all[j].expr.value, {VALUE}))
    ensures forall j :: 0 <= j < n && KindOf(all[j]) == KDefaultLazy ==>
      all[j].expr.Some? && FoldPrefix(all, n).value.default == Some(DefaultRule(all[j].expr.value, {LAZY}))
  {
    if n > 0 {
      FoldOkPrefix(all, n - 1, n);
      FoldDefaultRule(all, n - 1);
      var acc := FoldPrefix(all, n - 1).value;
      StepDefault(all, all[n - 1], acc);
      StepKeeps(all, all[n - 1], acc);
      DefaultRuleExtends(all, n, acc, Step(all, all[n - 1], acc).value);
    }
  }

  /** The induction step of `FoldDefaultRule`, stated over the records
      before and after the last attribute. */
  lemma DefaultRuleExtends(all: seq<Attribute>, n: nat, acc: FieldAttributes, next: FieldAttributes)
    requires 0 < n <= |all|
    requires forall j :: 0 <= j < n - 1 && KindOf(all[j]) == KDefault ==>
      all[j].expr.Some? && acc.default == Some(DefaultRule(all[j].expr.value, {VALUE}))
    requires forall j :: 0 <= j < n - 1 && KindOf(all[j]) == KDefaultLazy ==>
      all[j].expr.Some? && acc.default == Some(DefaultRule(all[j].expr.value, {LAZY}))
    requires KindOf(all[n - 1]) == KDefault ==>
      acc.default.None? && all[n - 1].expr.Some? && next.default == Some(DefaultRule(all[n - 1].expr.value, {VALUE}))
    requires KindOf(all[n - 1]) == KDefaultLazy ==>
      acc.default.None? && all[n - 1].expr.Some? && next.default == Some(DefaultRule(all[n - 1].expr.value, {LAZY}))
    requires acc.default.Some? ==> next.default == acc.default
    ensures forall j :: 0 <= j < n && KindOf(all[j]) == KDefault ==>
      all[j].expr.Some? && next.default == Some(DefaultRule(all[j].expr.value, {VALUE}))
    ensures forall j :: 0 <= j < n && KindOf(all[j]) == KDefaultLazy ==>
      all[j].expr.Some? && next.default == Some(DefaultRule(all[j].expr.value, {LAZY}))
  {
  }

  /** The setters are those of the last `setter(...)` attribute, or VALUE
      alone when there is none. */
  lemma {:induction false} FoldSetters(all: seq<Attribute>, n: nat)
    requires n <= |all|
    requires FoldPrefix(all, n).Ok?
    ensures LastIndex(all, n, KSetter).None? ==> FoldPrefix(all, n).value.setters == {VALUE}
    ensures LastIndex(all, n, KSetter).Some? ==>
      SettersSpec(all[LastIndex(all, n, KSetter).value]) == Ok(FoldPrefix(all, n).value.setters)
  {
    if n > 0 {
      FoldOkPrefix(all, n - 1, n);
      FoldSetters(all, n - 1);
      StepSetters(all, all[n - 1], FoldPrefix(all, n - 1).value);
    }
  }

  /** `infer` is the list of the last `infer(...)` attribute, or empty. */
  lemma {:induction false} FoldInfer(all: seq<Attribute>, n: nat)
    requires n <= |all|
    requires FoldPrefix(all, n).Ok?
    ensures LastIndex(all, n, KInfer).None? ==> FoldPrefix(all, n).value.infer == []
    ensures LastIndex(all, n, KInfer).Some? ==>
      IdentsSpec(all[LastIndex(all, n, KInfer).value], InferError) == Ok(FoldPrefix(all, n).value.infer)
  {
    if n > 0 {
      FoldOkPrefix(all, n - 1, n);
      FoldInfer(all, n - 1);
      StepInfer(all, all[n - 1], FoldPrefix(all, n - 1).value);
    }
  }

  /** The validator is the expression of the last `validator` attribute. */
  lemma {:induction false} FoldValidator(all: seq<Attribute>, n: nat)
    requires n <= |all|
    requires FoldPrefix(all, n).Ok?
    ensures LastIndex(all, n, KValidator).None? ==> FoldPrefix(all, n).value.validator == None
    ensures LastIndex(all, n, KValidator).Some? ==>
      all[LastIndex(all, n, KValidator).value].expr.Some? &&
      FoldPrefix(all, n).value.validator == all[LastIndex(all, n, KValidator).value].expr
  {
    if n > 0 {
      FoldOkPrefix(all, n - 1, n);
      FoldValidator(all, n - 1);
      StepValidator(all, all[n - 1], FoldPrefix(all, n - 1).value);
    }
  }

  /** Documents are all `doc` attributes of the whole list as soon as one
      `doc` attribute has been seen, and none before. */
  lemma {:induction false} FoldDocuments(all: seq<Attribute>, n: nat)
    requires n <= |all|
    requires FoldPrefix(all, n).Ok?
    ensures FoldPrefix(all, n).value.documents == if Has(all, n, KDoc) then Seqs.Filter(all, IsDoc) else []
  {
    if n > 0 {
      FoldOkPrefix(all, n - 1, n);
      FoldDocuments(all, n - 1);
      StepDocuments(all, all[n - 1], FoldPrefix(all, n - 1).value);
    }
  }

  /** With no attributes a field has no default, no `into`, no validator, the
      value setter only, default visibility, an early-bound default and an
      empty `infer` list. */
  lemma NoAttributes()
    ensures Classify([]) == Ok(FieldAttributes(None, false, None, [], {VALUE}, Default, false, [], []))
  {
  }

  /** A second `default`, `default_lazy` or `default_async` on a field is
      rejected. */
  lemma DuplicateDefaultRejected(attrs: seq<Attribute>, i: nat, j: nat)
    requires i < j < |attrs|
    requires IsDefaultFamily(KindOf(attrs[i])) && IsDefaultFamily(KindOf(attrs[j]))
    ensures Classify(attrs).Err?
  {
    if FoldPrefix(attrs, j).Err? {
      FoldErrorPersists(attrs, j, |attrs|);
    } else {
      FoldDefault(attrs, j);
      assert LastIndex(attrs, j, KindOf(attrs[i])).Some?;
      assert FoldPrefix(attrs, j).value.default.Some?;
      assert FoldPrefix(attrs, j + 1).Err?;
      FoldErrorPersists(attrs, j + 1, |attrs|);
    }
  }

  /** `default_async` is always rejected, even as the first default. */
  lemma DefaultAsyncRejected(attrs: seq<Attribute>, j: nat)
    requires j < |attrs| && KindOf(attrs[j]) == KDefaultAsync
    ensures Classify(attrs).Err?
  {
    if FoldPrefix(attrs, |attrs|).Ok? {
      FoldDefault(attrs, |attrs|);
      assert false;
    }
  }

  /** `hidden` or `public` on a field whose visibility was already set is
      rejected. */
  lemma DuplicateVisibilityRejected(attrs: seq<Attribute>, i: nat, j: nat)
    requires i < j < |attrs|
    requires KindOf(attrs[i]) in {KHidden, KPublic} && KindOf(attrs[j]) in {KHidden, KPublic}
    ensures Classify(attrs).Err?
  {
    if FoldPrefix(attrs, j).Err? {
      FoldErrorPersists(attrs, j, |attrs|);
    } else {
      FoldFlags(attrs, j);
      assert LastIndex(attrs, j, KindOf(attrs[i])).Some?;
      assert FoldPrefix(attrs, j).value.vis != Default;
      assert FoldPrefix(attrs, j + 1).Err?;
      FoldErrorPersists(attrs, j + 1, |attrs|);
    }
  }

  /** Validation runs after the fold: a `hidden` field with no
      `default`/`default_lazy` anywhere in its list is rejected, before or
      after the `hidden` attribute alike. */
  lemma HiddenWithoutDefaultRejected(attrs: seq<Attribute>, j: nat)
    requires j < |attrs| && KindOf(attrs[j]) == KHidden
    requires forall k :: 0 <= k < |attrs| ==> KindOf(attrs[k]) != KDefault && KindOf(attrs[k]) != KDefaultLazy
    ensures Classify(attrs).Err?
  {
    if FoldPrefix(attrs, |attrs|).Ok? {
      FoldFlags(attrs, |attrs|);
      FoldDefault(attrs, |attrs|);
      assert Has(attrs, |attrs|, KHidden);
    }
  }

  /** A `hidden` field is late-bound and has a default: the two facts the
      builder relies on when it skips the field's setter. */
  lemma HiddenIsLateBoundWithDefault(attrs: seq<Attribute>)
    requires Classify(attrs).Ok? && Classify(attrs).value.vis == Hidden
    ensures Classify(attrs).value.lateBoundDefault && Classify(attrs).value.default.Some?
  {
    FoldFlags(attrs, |attrs|);
  }

  /** A record the classifier can produce. */
  ghost predicate Classified(fa: FieldAttributes)
  {
    exists attrs :: Classify(attrs) == Ok(fa)
  }

  /** A classified default is a value (VALUE) or a producer (LAZY), nothing
      else, and a hidden field is late-bound and has a default. */
  lemma ClassifiedFacts(fa: FieldAttributes)
    requires Classified(fa)
    ensures fa.default.Some? ==> fa.default.value.kind == {VALUE} || fa.default.value.kind == {LAZY}
    ensures fa.vis == Hidden ==> fa.lateBoundDefault && fa.default.Some?
  {
    var attrs :| Classify(attrs) == Ok(fa);
    assert FoldPrefix(attrs, |attrs|) == Ok(fa);
    FoldDefault(attrs, |attrs|);
    FoldFlags(attrs, |attrs|);
    if fa.default.Some? {
      if Has(attrs, |attrs|, KDefault) {
        var j := LastIndex(attrs, |attrs|, KDefault).value;
        assert fa.default.value.kind == {VALUE};
      } else {
        var j := LastIndex(attrs, |attrs|, KDefaultLazy).value;
        assert fa.default.value.kind == {LAZY};
      }
    }
  }
}
