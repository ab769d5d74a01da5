/** The setters of the current generator
    (builder-pattern-macro/src/builder/builder_functions.rs). For every field
    that is not hidden, one impl block per enabled setter kind (value,
    `_lazy`, `_async`). The impl header names the builder type with the
    field's slot `()` and every other slot a variable. The return type names
    it with the slot set to the field type. The struct literal copies every
    other builder field and stores the argument in this one. */
module BuilderFunctions {
  import opened Wrappers
  import opened Seqs
  import opened Attributes
  import opened Fields
  import opened StructInputs
  import opened TypeState
  import opened Setter

  datatype SetterKind = ValueSetter | LazySetter | AsyncSetter

  /** What a setter stores in its field. */
  datatype Store =
    | StoreValue                          // `Setter::Value(value.into())`
    | StoreValidatedValue(validator: string)  // `Setter::Value(value)` with the validated value
    | StoreLazy                           // `Setter::Lazy(Box::new(value))`
    | StoreLazyValidated(validator: string)   // `Setter::LazyValidated(...)`
    | StoreAsync                          // `Setter::Async(...)`
    | StoreAsyncValidated(validator: string)  // `Setter::AsyncValidated(...)`

  /** A builder field in the struct literal a setter returns. */
  datatype FieldInit = Copy(ident: string) | Stored(ident: string, store: Store)

  /** One emitted setter: its name and kind, the slot it sets, the generic
      variables its impl declares, the impl header, the return type, whether
      it returns a `Result`, and its struct literal. */
  datatype SetterPlan = SetterPlan(
    name: string,
    kind: SetterKind,
    index: nat,
    fieldTy: string,
    useInto: bool,
    declared: seq<GenName>,
    impl: Header,
    ret: Header,
    returnsResult: bool,
    fields: seq<FieldInit>)

  /** `all_builder_fields`: every field copied from `self`. */
  function CopyFields(si: StructInput): (r: seq<FieldInit>)
    ensures |r| == NumFields(si)
    ensures forall k :: 0 <= k < |r| ==> r[k] == Copy(AllFields(si)[k].ident)
  {
    Map(AllFields(si), (f: Field) => Copy(f.ident))
  }

  /** The markers every setter impl declares and matches. */
  const MarkerVars: seq<Pat> := [Var(AsyncFieldMarker), Var(ValidatorOption)]

  /** `get_generics`: the slot variables without slot `index` (declared by
      the impl), and the slots with slot `index` replaced by `()` (the impl
      header) and by the field type (the return type). */
  method GetGenerics(si: StructInput, f: Field, index: nat) returns (other: seq<GenName>, before: seq<Pat>, after: seq<Pat>)
    requires index < NumFields(si)
    ensures other == AllGenerics(si)[..index] + AllGenerics(si)[index + 1..]
    ensures before == SlotVars(AllGenerics(si))[index := Lit(Unit)]
    ensures after == SlotVars(AllGenerics(si))[index := Lit(Ty(f.ty))]
  {
    var allGenerics := AllGenerics(si);
    other := allGenerics[..index] + allGenerics[index + 1..];
    before := SlotVars(allGenerics);
    before := before[index := Lit(Unit)];
    after := SlotVars(allGenerics);
    after := after[index := Lit(Ty(f.ty))];
  }

  function Other(si: StructInput, index: nat): seq<GenName>
    requires index < NumFields(si)
  {
    AllGenerics(si)[..index] + AllGenerics(si)[index + 1..]
  }

  function Before(si: StructInput, index: nat): seq<Pat>
    requires index < NumFields(si)
  {
    SlotVars(AllGenerics(si))[index := Lit(Unit)]
  }

  function After(si: StructInput, f: Field, index: nat): seq<Pat>
    requires index < NumFields(si)
  {
    SlotVars(AllGenerics(si))[index := Lit(Ty(f.ty))]
  }

  /** The value setter `ident`. */
  function ValuePlan(si: StructInput, f: Field, index: nat, builderFields: seq<FieldInit>): (p: SetterPlan)
    requires index < NumFields(si) && |builderFields| == NumFields(si)
    ensures |p.impl.markers| == |p.ret.markers| == 2
    ensures p.name == f.ident && p.kind == ValueSetter
    ensures p.returnsResult <==> f.attrs.validator.Some?
    ensures p.ret.markers == p.impl.markers
    ensures p.index == index && p.fieldTy == f.ty
    ensures |p.fields| == |builderFields| && p.fields[index] == Stored(f.ident, StoreOf(f, ValueSetter))
    ensures |p.impl.slots| == |p.ret.slots| == NumFields(si)
    ensures p.impl.slots[index] == Lit(Unit) && p.ret.slots[index] == Lit(Ty(f.ty))
  {
    var store := if f.attrs.validator.Some? then StoreValidatedValue(f.attrs.validator.value) else StoreValue;
    SetterPlan(f.ident, ValueSetter, index, f.ty, f.attrs.useInto,
      Other(si, index) + [AsyncFieldMarker, ValidatorOption],
      Header(Before(si, index), MarkerVars),
      Header(After(si, f, index), MarkerVars),
      f.attrs.validator.Some?,
      builderFields[index := Stored(f.ident, store)])
  }

  /** The marker a lazy or async setter returns in the validator position. */
  function ValidatorMarker(f: Field): Pat
  {
    if f.attrs.validator.Some? then Lit(HavingLazyValidator) else Var(ValidatorOption)
  }

  /** The lazy setter `ident_lazy`. */
  function LazyPlan(si: StructInput, f: Field, index: nat, builderFields: seq<FieldInit>): (p: SetterPlan)
    requires index < NumFields(si) && |builderFields| == NumFields(si)
    ensures |p.impl.markers| == |p.ret.markers| == 2
    ensures p.name == f.ident + "_lazy" && p.kind == LazySetter && !p.returnsResult
    ensures p.ret.markers[0] == p.impl.markers[0]
    ensures p.ret.markers[1] == if f.attrs.validator.Some? then Lit(HavingLazyValidator) else p.impl.markers[1]
    ensures p.index == index && p.fieldTy == f.ty
    ensures |p.fields| == |builderFields| && p.fields[index] == Stored(f.ident, StoreOf(f, LazySetter))
    ensures |p.impl.slots| == |p.ret.slots| == NumFields(si)
    ensures p.impl.slots[index] == Lit(Unit) && p.ret.slots[index] == Lit(Ty(f.ty))
  {
    var store := if f.attrs.validator.Some? then StoreLazyValidated(f.attrs.validator.value) else StoreLazy;
    SetterPlan(f.ident + "_lazy", LazySetter, index, f.ty, false,
      Other(si, index) + [AsyncFieldMarker, ValidatorOption],
      Header(Before(si, index), MarkerVars),
      Header(After(si, f, index), [Var(AsyncFieldMarker), ValidatorMarker(f)]),
      false,
      builderFields[index := Stored(f.ident, store)])
  }

  /** The async setter `ident_async`. */
  function AsyncPlan(si: StructInput, f: Field, index: nat, builderFields: seq<FieldInit>): (p: SetterPlan)
    requires index < NumFields(si) && |builderFields| == NumFields(si)
    ensures |p.impl.markers| == |p.ret.markers| == 2
    ensures p.name == f.ident + "_async" && p.kind == AsyncSetter && !p.returnsResult
    ensures p.ret.markers[0] == Lit(AsyncBuilderMarker)
    ensures p.ret.markers[1] == if f.attrs.validator.Some? then Lit(HavingLazyValidator) else p.impl.markers[1]
    ensures p.index == index && p.fieldTy == f.ty
    ensures |p.fields| == |builderFields| && p.fields[index] == Stored(f.ident, StoreOf(f, AsyncSetter))
    ensures |p.impl.slots| == |p.ret.slots| == NumFields(si)
    ensures p.impl.slots[index] == Lit(Unit) && p.ret.slots[index] == Lit(Ty(f.ty))
  {
    var store := if f.attrs.validator.Some? then StoreAsyncValidated(f.attrs.validator.value) else StoreAsync;
    SetterPlan(f.ident + "_async", AsyncSetter, index, f.ty, false,
      Other(si, index) + [AsyncFieldMarker, ValidatorOption],
      Header(Before(si, index), MarkerVars),
      Header(After(si, f, index), [Lit(AsyncBuilderMarker), ValidatorMarker(f)]),
      false,
      builderFields[index := Stored(f.ident, store)])
  }

  /** `write_value_setter`: overwrites entry `index` of the shared builder
      fields and emits the setter. */
  method WriteValueSetter(si: StructInput, f: Field, index: nat, builderFields: seq<FieldInit>)
    returns (plan: SetterPlan, newFields: seq<FieldInit>)
    requires index < NumFields(si) && |builderFields| == NumFields(si)
    ensures plan == ValuePlan(si, f, index, builderFields)
    ensures newFields == plan.fields
  {
    var other, before, after := GetGenerics(si, f, index);
    var store := StoreValue;
    if f.attrs.validator.Some? {
      store := StoreValidatedValue(f.attrs.validator.value);
    }
    newFields := builderFields[index := Stored(f.ident, store)];
    plan := SetterPlan(f.ident, ValueSetter, index, f.ty, f.attrs.useInto,
      other + [AsyncFieldMarker, ValidatorOption],
      Header(before, MarkerVars), Header(after, MarkerVars),
      f.attrs.validator.Some?, newFields);
  }

  /** `write_lazy_setter`. */
  method WriteLazySetter(si: StructInput, f: Field, index: nat, builderFields: seq<FieldInit>)
    returns (plan: SetterPlan, newFields: seq<FieldInit>)
    requires index < NumFields(si) && |builderFields| == NumFields(si)
    ensures plan == LazyPlan(si, f, index, builderFields)
    ensures newFields == plan.fields
  {
    var other, before, after := GetGenerics(si, f, index);
    var store := StoreLazy;
    var validatorOption := Var(ValidatorOption);
    if f.attrs.validator.Some? {
      store := StoreLazyValidated(f.attrs.validator.value);
      validatorOption := Lit(HavingLazyValidator);
    }
    newFields := builderFields[index := Stored(f.ident, store)];
    plan := SetterPlan(f.ident + "_lazy", LazySetter, index, f.ty, false,
      other + [AsyncFieldMarker, ValidatorOption],
      Header(before, MarkerVars), Header(after, [Var(AsyncFieldMarker), validatorOption]),
      false, newFields);
  }

  /** `write_async_setter`. */
  method WriteAsyncSetter(si: StructInput, f: Field, index: nat, builderFields: seq<FieldInit>)
    returns (plan: SetterPlan, newFields: seq<FieldInit>)
    requires index < NumFields(si) && |builderFields| == NumFields(si)
    ensures plan == AsyncPlan(si, f, index, builderFields)
    ensures newFields == plan.fields
  {
    var other, before, after := GetGenerics(si, f, index);
    var store := StoreAsync;
    var validatorOption := Var(ValidatorOption);
    if f.attrs.validator.Some? {
      store := StoreAsyncValidated(f.attrs.validator.value);
      validatorOption := Lit(HavingLazyValidator);
    }
    newFields := builderFields[index := Stored(f.ident, store)];
    plan := SetterPlan(f.ident + "_async", AsyncSetter, index, f.ty, false,
      other + [AsyncFieldMarker, ValidatorOption],
      Header(before, MarkerVars), Header(after, [Lit(AsyncBuilderMarker), validatorOption]),
      false, newFields);
  }

  /** The setters emitted for the field at slot `k`, in the order value,
      lazy, async; none for a hidden field. */
  function FieldPlans(si: StructInput, k: nat): seq<SetterPlan>
    requires k < NumFields(si)
  {
    var f := AllFields(si)[k];
    var copies := CopyFields(si);
    if f.attrs.vis == Hidden then []
    else
      (if VALUE in f.attrs.setters then [ValuePlan(si, f, k, copies)] else [])
      + (if LAZY in f.attrs.setters then [LazyPlan(si, f, k, copies)] else [])
      + (if ASYNC in f.attrs.setters then [AsyncPlan(si, f, k, copies)] else [])
  }

  /** The setters emitted for the first `n` fields. */
  function PlansPrefix(si: StructInput, n: nat): seq<SetterPlan>
    requires n <= NumFields(si)
    decreases n, 0
  {
    if n == 0 then [] else PlansThrough(si, n - 1)
  }

  /** The setters emitted for the fields up to and including slot `k`. */
  function PlansThrough(si: StructInput, k: nat): seq<SetterPlan>
    requires k < NumFields(si)
    decreases k, 1
  {
    PlansPrefix(si, k) + FieldPlans(si, k)
  }

  /** All setters of the struct. */
  function Plans(si: StructInput): seq<SetterPlan>
  {
    PlansPrefix(si, NumFields(si))
  }

  /** A setter only ever writes entry `index`, so what earlier setters of
      the same field wrote there is invisible to a later one. */
  lemma OverwrittenEntry(all: seq<FieldInit>, given: seq<FieldInit>, index: nat, x: FieldInit)
    requires index < |all| && |given| == |all| && given == all[index := given[index]]
    ensures given[index := x] == all[index := x]
  {
  }

  /** The body of the `for_each` closure of `to_tokens` for a field that is
      not hidden: a fresh copy of the builder fields, then each enabled
      setter in the order value, lazy, async. */
  method WriteFieldSetters(si: StructInput, index: nat, allBuilderFields: seq<FieldInit>) returns (emitted: seq<SetterPlan>)
    requires index < NumFields(si) && allBuilderFields == CopyFields(si)
    requires AllFields(si)[index].attrs.vis != Hidden
    ensures emitted == FieldPlans(si, index)
  {
    var f := AllFields(si)[index];
    var builderFields := allBuilderFields;
    emitted := [];
    if VALUE in f.attrs.setters {
      var p;
      p, builderFields := WriteValueSetter(si, f, index, builderFields);
      emitted := emitted + [p];
    }
    // every setter of this field overwrites the same entry
    assert builderFields == allBuilderFields[index := builderFields[index]];
    if LAZY in f.attrs.setters {
      var p;
      ghost var given := builderFields;
      p, builderFields := WriteLazySetter(si, f, index, builderFields);
      OverwrittenEntry(allBuilderFields, given, index, builderFields[index]);
      assert p == LazyPlan(si, f, index, allBuilderFields);
      emitted := emitted + [p];
    }
    assert builderFields == allBuilderFields[index := builderFields[index]];
    if ASYNC in f.attrs.setters {
      var p;
      ghost var given := builderFields;
      p, builderFields := WriteAsyncSetter(si, f, index, builderFields);
      OverwrittenEntry(allBuilderFields, given, index, builderFields[index]);
      assert p == AsyncPlan(si, f, index, allBuilderFields);
      emitted := emitted + [p];
    }
  }

  /** `BuilderFunctions::to_tokens`: walks the fields in slot order with a
      counter that also advances past hidden fields. */
  method ToTokens(si: StructInput) returns (plans: seq<SetterPlan>)
    ensures plans == Plans(si)
  {
    var allBuilderFields := CopyFields(si);
    var fields := AllFields(si);
    plans := [];
    var index := 0;
    while index < |fields|
      invariant 0 <= index <= |fields|
      invariant plans == PlansPrefix(si, index)
    {
      var f := fields[index];
      if f.attrs.vis == Hidden {
        index := index + 1;
        continue;
      }
      var emitted := WriteFieldSetters(si, index, allBuilderFields);
      plans := plans + emitted;
      index := index + 1;
    }
  }

  // ---- what the emitted setters mean ----

  /** The name a setter of the given kind gets. */
  function SetterName(ident: string, kind: SetterKind): string
  {
    match kind
    case ValueSetter => ident
    case LazySetter => ident + "_lazy"
    case AsyncSetter => ident + "_async"
  }

  function KindFlag(kind: SetterKind): Flag
  {
    match kind
    case ValueSetter => VALUE
    case LazySetter => LAZY
    case AsyncSetter => ASYNC
  }

  /** What a setter of the given kind stores for a field. */
  function StoreOf(f: Field, kind: SetterKind): Store
  {
    match kind
    case ValueSetter => if f.attrs.validator.Some? then StoreValidatedValue(f.attrs.validator.value) else StoreValue
    case LazySetter => if f.attrs.validator.Some? then StoreLazyValidated(f.attrs.validator.value) else StoreLazy
    case AsyncSetter => if f.attrs.validator.Some? then StoreAsyncValidated(f.attrs.validator.value) else StoreAsync
  }

  /** A plan belongs to the field at its index: it is one of the setters
      that field enables, named after it, and it stores into that field and
      copies every other. */
  ghost predicate PlanFor(si: StructInput, p: SetterPlan)
  {
    && p.index < NumFields(si)
    && var f := AllFields(si)[p.index];
    && f.attrs.vis != Hidden
    && KindFlag(p.kind) in f.attrs.setters
    && p.name == SetterName(f.ident, p.kind)
    && p.fieldTy == f.ty
    && p.useInto == (p.kind == ValueSetter && f.attrs.useInto)
    && p.returnsResult == (p.kind == ValueSetter && f.attrs.validator.Some?)
    && |p.fields| == NumFields(si)
    && (forall j :: 0 <= j < NumFields(si) && j != p.index ==> p.fields[j] == Copy(AllFields(si)[j].ident))
    && p.fields[p.index] == Stored(f.ident, StoreOf(f, p.kind))
  }

  lemma FieldPlansFor(si: StructInput, k: nat)
    requires k < NumFields(si)
    ensures forall p :: p in FieldPlans(si, k) ==> PlanFor(si, p) && p.index == k
  {
  }

  lemma FieldPlansIndex(si: StructInput, k: nat)
    requires k < NumFields(si)
    ensures forall p :: p in FieldPlans(si, k) ==> p.index == k
  {
  }

  lemma FieldPlansKinds(si: StructInput, k: nat)
    requires k < NumFields(si)
    ensures forall kind :: Enables(AllFields(si)[k], kind) <==> exists p :: p in FieldPlans(si, k) && p.kind == kind
  {
    FieldPlansFor(si, k);
    var f := AllFields(si)[k];
    forall kind | f.attrs.vis != Hidden && KindFlag(kind) in f.attrs.setters
      ensures exists p :: p in FieldPlans(si, k) && p.kind == kind
    {
      var copies := CopyFields(si);
      match kind {
        case ValueSetter => assert ValuePlan(si, f, k, copies) in FieldPlans(si, k);
        case LazySetter => assert LazyPlan(si, f, k, copies) in FieldPlans(si, k);
        case AsyncSetter => assert AsyncPlan(si, f, k, copies) in FieldPlans(si, k);
      }
    }
  }

  /** The setters for the first `n` fields belong to those fields. */
  lemma {:induction false} PlansIndexPrefix(si: StructInput, n: nat)
    requires n <= NumFields(si)
    ensures forall p :: p in PlansPrefix(si, n) ==> p.index < n
  {
    if n > 0 {
      var prev: seq<SetterPlan> := PlansPrefix(si, n - 1);
      var last: seq<SetterPlan> := FieldPlans(si, n - 1);
      assert PlansPrefix(si, n) == prev + last;
      PlansIndexPrefix(si, n - 1);
      FieldPlansIndex(si, n - 1);
    }
  }

  /** Field `f` is not hidden and enables setters of kind `kind`. */
  predicate Enables(f: Field, kind: SetterKind)
  {
    f.attrs.vis != Hidden && KindFlag(kind) in f.attrs.setters
  }

  /** `plans` holds a setter of kind `kind` for slot `k`. */
  predicate HasSetter(plans: seq<SetterPlan>, k: nat, kind: SetterKind)
  {
    exists p :: p in plans && p.index == k && p.kind == kind
  }

  /** Every emitted setter belongs to its field, and the setters of a field
      are exactly the kinds it enables unless it is hidden: a hidden field
      has none, yet the fields after it keep their own slot index. */
  lemma PlansCoverPrefix(si: StructInput, n: nat)
    requires n <= NumFields(si)
    ensures forall p :: p in PlansPrefix(si, n) ==> PlanFor(si, p) && p.index < n
    ensures forall k: nat, kind :: k < n ==> (Enables(AllFields(si)[k], kind) <==> HasSetter(PlansPrefix(si, n), k, kind))
  {
    PlansForPrefix(si, n);
    forall k: nat, kind | k < n ensures Enables(AllFields(si)[k], kind) <==> HasSetter(PlansPrefix(si, n), k, kind) {
      PlanKindPrefix(si, n, k, kind);
    }
  }

  lemma {:induction false} PlansForPrefix(si: StructInput, n: nat)
    requires n <= NumFields(si)
    ensures forall p :: p in PlansPrefix(si, n) ==> PlanFor(si, p) && p.index < n
  {
    if n > 0 {
      var prev: seq<SetterPlan> := PlansPrefix(si, n - 1);
      var last: seq<SetterPlan> := FieldPlans(si, n - 1);
      assert PlansPrefix(si, n) == prev + last;
      PlansForPrefix(si, n - 1);
      FieldPlansFor(si, n - 1);
      forall p | p in prev + last ensures PlanFor(si, p) && p.index < n {
        if p !in prev {
          assert p in last;
        }
      }
    }
  }

  /** Field `k` gets a setter of kind `kind` among the first `n` fields'
      setters exactly when it enables that kind and is not hidden. */
  lemma {:induction false} PlanKindPrefix(si: StructInput, n: nat, k: nat, kind: SetterKind)
    requires k < n <= NumFields(si)
    ensures Enables(AllFields(si)[k], kind) <==> HasSetter(PlansPrefix(si, n), k, kind)
  {
    PlanKindLast(si, k + 1, kind);
    PlanKindStable(si, k + 1, n, k, kind);
  }

  /** Later fields add no setters for slot `k`. */
  lemma {:induction false} PlanKindStable(si: StructInput, m: nat, n: nat, k: nat, kind: SetterKind)
    requires k < m <= n <= NumFields(si)
    ensures HasSetter(PlansPrefix(si, n), k, kind) <==> HasSetter(PlansPrefix(si, m), k, kind)
  {
    if m < n {
      PlanKindStable(si, m, n - 1, k, kind);
      PlanKindEarlier(si, n, k, kind);
    }
  }

  /** The setters of field `n - 1` leave the earlier slots' setters as they were. */
  lemma PlanKindEarlier(si: StructInput, n: nat, k: nat, kind: SetterKind)
    requires k < n - 1 && n <= NumFields(si)
    ensures HasSetter(PlansPrefix(si, n), k, kind) <==> HasSetter(PlansPrefix(si, n - 1), k, kind)
  {
    var prev: seq<SetterPlan> := PlansPrefix(si, n - 1);
    var last: seq<SetterPlan> := FieldPlans(si, n - 1);
    assert PlansPrefix(si, n) == prev + last;
    FieldPlansIndex(si, n - 1);
    if HasSetter(prev + last, k, kind) {
      var p :| p in prev + last && p.index == k && p.kind == kind;
      assert p in prev;
    }
    if HasSetter(prev, k, kind) {
      var p :| p in prev && p.index == k && p.kind == kind;
      assert p in prev + last;
    }
  }

  /** The setters for slot `n - 1` are those of its own field. */
  lemma PlanKindLast(si: StructInput, n: nat, kind: SetterKind)
    requires 0 < n <= NumFields(si)
    ensures Enables(AllFields(si)[n - 1], kind) <==> HasSetter(PlansPrefix(si, n), n - 1, kind)
  {
    var prev: seq<SetterPlan> := PlansPrefix(si, n - 1);
    var last: seq<SetterPlan> := FieldPlans(si, n - 1);
    assert PlansPrefix(si, n) == prev + last;
    FieldPlansIndex(si, n - 1);
    PlansIndexPrefix(si, n - 1);
    FieldPlansKinds(si, n - 1);
    if exists p :: p in last && p.kind == kind {
      var p :| p in last && p.kind == kind;
      assert p in prev + last && p.index == n - 1;
    }
    if HasSetter(prev + last, n - 1, kind) {
      var p :| p in prev + last && p.index == n - 1 && p.kind == kind;
      assert p in last;
    }
  }

  /** The whole struct: a setter of kind `kind` for slot `k` is emitted
      exactly when field `k` is not hidden and enables that kind. */
  lemma PlansCover(si: StructInput)
    ensures forall p :: p in Plans(si) ==> PlanFor(si, p)
    ensures forall k: nat, kind :: k < NumFields(si) ==> (Enables(AllFields(si)[k], kind) <==> HasSetter(Plans(si), k, kind))
  {
    PlansCoverPrefix(si, NumFields(si));
  }

  /** The headers of a setter emitted for slot `k`. */
  lemma FieldPlanShape(si: StructInput, k: nat, p: SetterPlan)
    requires k < NumFields(si) && p in FieldPlans(si, k)
    ensures p.index == k
    ensures p.declared == Other(si, k) + [AsyncFieldMarker, ValidatorOption]
    ensures p.impl == Header(Before(si, k), MarkerVars)
    ensures p.ret == Header(After(si, AllFields(si)[k], k), RetMarkers(AllFields(si)[k], p.kind))
  {
    var f := AllFields(si)[k];
    var copies := CopyFields(si);
    assert p == ValuePlan(si, f, k, copies) || p == LazyPlan(si, f, k, copies) || p == AsyncPlan(si, f, k, copies);
  }

  lemma {:induction false} PlanInPrefix(si: StructInput, n: nat, p: SetterPlan)
    requires n <= NumFields(si) && p in PlansPrefix(si, n)
    ensures p.index < n
    ensures p.declared == Other(si, p.index) + [AsyncFieldMarker, ValidatorOption]
    ensures p.impl == Header(Before(si, p.index), MarkerVars)
    ensures p.ret == Header(After(si, AllFields(si)[p.index], p.index), RetMarkers(AllFields(si)[p.index], p.kind))
  {
    assert PlansPrefix(si, n) == PlansPrefix(si, n - 1) + FieldPlans(si, n - 1);
    if p in PlansPrefix(si, n - 1) {
      PlanInPrefix(si, n - 1, p);
    } else {
      FieldPlanShape(si, n - 1, p);
    }
  }

  /** The markers a setter of the given kind returns. */
  function RetMarkers(f: Field, kind: SetterKind): seq<Pat>
  {
    match kind
    case ValueSetter => MarkerVars
    case LazySetter => [Var(AsyncFieldMarker), ValidatorMarker(f)]
    case AsyncSetter => [Lit(AsyncBuilderMarker), ValidatorMarker(f)]
  }

  /** The positions of a header over `n` slots in which slot `i` is the
      concrete type `a` and every other slot `k` its own variable
      `TyBuilderPattern(k + 1)`. */
  function SlotPats(n: nat, i: nat, a: TypeArg): (r: seq<Pat>)
    ensures |r| == n
  {
    seq(n, k requires 0 <= k < n => if k == i then Lit(a) else Var(TyBuilderPattern(k + 1)))
  }

  lemma BeforeAfter(si: StructInput, f: Field, i: nat)
    requires i < NumFields(si)
    ensures Before(si, i) == SlotPats(NumFields(si), i, Unit)
    ensures After(si, f, i) == SlotPats(NumFields(si), i, Ty(f.ty))
  {
  }

  /** The impl declares exactly the variables its header uses, each once. */
  lemma DeclaredVars(si: StructInput, p: SetterPlan)
    requires p in Plans(si)
    ensures DistinctVars(Flat(p.impl))
    ensures forall n :: n in p.declared <==> Var(n) in Flat(p.impl)
  {
    PlanInPrefix(si, NumFields(si), p);
    var N := NumFields(si);
    BeforeAfter(si, AllFields(si)[p.index], p.index);
    assert Flat(p.impl) == SlotPats(N, p.index, Unit) + MarkerVars;
    SlotPatsDistinct(N, p.index, Unit);
    DeclaredInHeader(si, p.index);
    HeaderDeclared(si, p.index);
  }

  /** Slot `j` of the impl's declared slot variables, `index` left out. */
  lemma OtherAt(si: StructInput, index: nat, j: nat)
    requires index < NumFields(si) && j < NumFields(si) - 1
    ensures |Other(si, index)| == NumFields(si) - 1
    ensures j < index ==> Other(si, index)[j] == TyBuilderPattern(j + 1)
    ensures index <= j ==> Other(si, index)[j] == TyBuilderPattern(j + 2)
  {
    var g := AllGenerics(si);
    if j < index {
      assert Other(si, index)[j] == g[j];
    } else {
      assert Other(si, index)[j] == g[j + 1];
    }
  }

  lemma DeclaredInHeader(si: StructInput, index: nat)
    requires index < NumFields(si)
    ensures forall n :: n in Other(si, index) + [AsyncFieldMarker, ValidatorOption] ==>
      Var(n) in SlotPats(NumFields(si), index, Unit) + MarkerVars
  {
    var N := NumFields(si);
    var pats := SlotPats(N, index, Unit) + MarkerVars;
    forall n | n in Other(si, index) + [AsyncFieldMarker, ValidatorOption] ensures Var(n) in pats {
      if n == AsyncFieldMarker {
        assert pats[N] == Var(n);
      } else if n == ValidatorOption {
        assert pats[N + 1] == Var(n);
      } else {
        var j :| 0 <= j < |Other(si, index)| && Other(si, index)[j] == n;
        OtherAt(si, index, j);
        if j < index {
          assert pats[j] == Var(n);
        } else {
          assert pats[j + 1] == Var(n);
        }
      }
    }
  }

  lemma HeaderDeclared(si: StructInput, index: nat)
    requires index < NumFields(si)
    ensures forall n :: Var(n) in SlotPats(NumFields(si), index, Unit) + MarkerVars ==>
      n in Other(si, index) + [AsyncFieldMarker, ValidatorOption]
  {
    var N := NumFields(si);
    var pats := SlotPats(N, index, Unit) + MarkerVars;
    var declared := Other(si, index) + [AsyncFieldMarker, ValidatorOption];
    forall n | Var(n) in pats ensures n in declared {
      var j :| 0 <= j < |pats| && pats[j] == Var(n);
      if j < index {
        OtherAt(si, index, j);
        assert declared[j] == n;
      } else if index < j < N {
        OtherAt(si, index, j - 1);
        assert declared[j - 1] == n;
      } else if j == N {
        assert declared[N - 1] == n;
      } else if j == N + 1 {
        assert declared[N] == n;
      }
    }
  }

  lemma SlotPatsDistinct(n: nat, i: nat, a: TypeArg)
    ensures DistinctVars(SlotPats(n, i, a) + MarkerVars)
  {
    var pats := SlotPats(n, i, a) + MarkerVars;
    forall x, y | 0 <= x < y < |pats| && pats[x].Var? ensures pats[x] != pats[y] {
      if y < n {
        assert pats[x] == Var(TyBuilderPattern(x + 1));
      }
    }
  }

  /** A header of the setter shape over a builder type: it matches exactly
      when slot `i` is `()`, sets slot `i` to `t`, keeps every other slot,
      and each returned marker is the literal it names or, for a variable,
      the marker the builder had. */
  lemma {:induction false} SlotSetterApply(n: nat, i: nat, t: string, m0: Pat, m1: Pat, s: State)
    requires i < n && |s.slots| == n && |s.markers| == 2
    requires m0 == Var(AsyncFieldMarker) || m0.Lit?
    requires m1 == Var(ValidatorOption) || m1.Lit?
    ensures Apply(Header(SlotPats(n, i, Unit), MarkerVars), Header(SlotPats(n, i, Ty(t)), [m0, m1]), s).Some?
      <==> s.slots[i] == Unit
    ensures s.slots[i] == Unit ==>
      Apply(Header(SlotPats(n, i, Unit), MarkerVars), Header(SlotPats(n, i, Ty(t)), [m0, m1]), s).value
        == State(s.slots[i := Ty(t)], [if m0.Lit? then m0.arg else s.markers[0], if m1.Lit? then m1.arg else s.markers[1]])
  {
    var h := Header(SlotPats(n, i, Unit), MarkerVars);
    var ret := Header(SlotPats(n, i, Ty(t)), [m0, m1]);
    var pats := Flat(h);
    var args := Args(h, s);
    assert s.markers[..2] == s.markers;
    assert args == s.slots + s.markers;
    SlotPatsDistinct(n, i, Unit);
    MatchesDistinct(pats, args);
    assert pats[i] == Lit(Unit);
    if s.slots[i] == Unit {
      assert Matches(pats, args) by {
        forall k | 0 <= k < |pats| && pats[k].Lit? ensures args[k] == pats[k].arg {
          assert k == i;
        }
      }
      forall k | 0 <= k < n ensures Bind(ret.slots[k], pats, args) == Some(s.slots[i := Ty(t)][k]) {
        if k != i {
          assert ret.slots[k] == pats[k];
          BindVar(pats, args, k);
        }
      }
      if m0.Var? {
        assert m0 == pats[n];
        BindVar(pats, args, n);
      }
      if m1.Var? {
        assert m1 == pats[n + 1];
        BindVar(pats, args, n + 1);
      }
      var slots := Instantiate(ret.slots, pats, args);
      var markers := Instantiate(ret.markers, pats, args);
      assert slots.value == s.slots[i := Ty(t)];
    } else {
      assert !Matches(pats, args) by {
        assert args[i] != pats[i].arg;
      }
    }
  }

  /** Setter `i` can be called exactly on builders whose slot `i` is `()`,
      whatever the other slots and the markers hold. It sets slot `i` to the
      field type and leaves every other slot alone. A value setter keeps both
      markers. A lazy setter keeps the async marker. An async setter sets it to
      `AsyncBuilderMarker`. A lazy or async setter with a validator sets the
      validator marker to `HavingLazyValidator`. */
  lemma SetterTransition(si: StructInput, p: SetterPlan, s: State)
    requires p in Plans(si)
    requires |s.slots| == NumFields(si) && |s.markers| == 2
    ensures p.index < NumFields(si)
    ensures Apply(p.impl, p.ret, s).Some? <==> s.slots[p.index] == Unit
    ensures Apply(p.impl, p.ret, s).Some? ==>
      Apply(p.impl, p.ret, s).value == State(
        s.slots[p.index := Ty(AllFields(si)[p.index].ty)],
        [if p.kind == AsyncSetter then AsyncBuilderMarker else s.markers[0],
         if p.kind != ValueSetter && AllFields(si)[p.index].attrs.validator.Some? then HavingLazyValidator else s.markers[1]])
  {
    PlanInPrefix(si, NumFields(si), p);
    var f := AllFields(si)[p.index];
    BeforeAfter(si, f, p.index);
    var m := RetMarkers(f, p.kind);
    SlotSetterApply(NumFields(si), p.index, f.ty, m[0], m[1], s);
  }

  // ---- calling a setter on a builder value ----

  /** A generated builder: its type and the content of its fields. */
  datatype Builder = Builder(state: State, values: seq<Option<ValueRepr>>)

  /** The argument of a setter: a value, or a producer for `_lazy`/`_async`. */
  datatype Arg = ValueArg(v: Value) | ProducerArg(p: Producer)

  /** The content of the builder fields after the setter's struct literal:
      copied entries come from `self`, the stored entry holds `repr`. */
  function Literal(fields: seq<FieldInit>, current: seq<Option<ValueRepr>>, repr: ValueRepr): (r: seq<Option<ValueRepr>>)
    requires |fields| == |current|
    ensures |r| == |fields|
  {
    seq(|fields|, j requires 0 <= j < |fields| => if fields[j].Copy? then current[j] else Some(repr))
  }

  /** `value.into()`: converts to the field type when the setter accepts
      any `Into<T>`, and is the identity otherwise. */
  function Converted(p: SetterPlan, v: Value, env: Env): Value
  {
    if p.useInto then env.convert(p.fieldTy, v) else v
  }

  /** What the stored entry of the struct literal evaluates to: `None` when
      the argument does not have the type the setter takes, an `Err` when a
      value setter's validator rejects the value. */
  function StoredEntry(p: SetterPlan, store: Store, arg: Arg, env: Env): (r: Option<Result<ValueRepr>>)
    ensures r.Some? <==> (arg.ValueArg? <==> store.StoreValue? || store.StoreValidatedValue?)
    ensures r.Some? && r.value.Err? ==> store.StoreValidatedValue?
    ensures r.Some? && r.value.Ok? ==> Declared(r.value.value, true)
    ensures r.Some? && r.value.Ok? ==> (Declared(r.value.value, false) <==> !store.StoreAsync? && !store.StoreAsyncValidated?)
  {
    match (store, arg)
    case (StoreValue, ValueArg(v)) => Some(Ok(Value(Converted(p, v, env))))
    case (StoreValidatedValue(validator), ValueArg(v)) =>
      (match env.validate(validator, Converted(p, v, env))
       case Ok(x) => Some(Ok(Value(x)))
       case Err(e) => Some(Err("Validation failed: " + env.debug(e))))
    case (StoreLazy, ProducerArg(f)) => Some(Ok(Lazy(f)))
    case (StoreLazyValidated(validator), ProducerArg(f)) => Some(Ok(LazyValidated(Validated(validator, f))))
    case (StoreAsync, ProducerArg(f)) => Some(Ok(Async(f)))
    case (StoreAsyncValidated(validator), ProducerArg(f)) => Some(Ok(AsyncValidated(Validated(validator, f))))
    case _ => None
  }

  /** Calling setter `p` with `arg` on builder `b`. `None` when the call does
      not type-check (the header does not match, or the argument has the
      wrong shape); otherwise the returned builder, or, for a validated
      value setter whose validator fails, the `Err` it returns. */
  function Call(p: SetterPlan, b: Builder, arg: Arg, env: Env): (r: Option<Outcome<Builder>>)
    ensures r.Some? ==> Apply(p.impl, p.ret, b.state).Some? && !r.value.Panicked?
    ensures r.Some? ==> |p.fields| == |b.values| && p.index < |p.fields| && p.fields[p.index].Stored?
    ensures r.Some? && r.value.Failed? ==> p.fields[p.index].store.StoreValidatedValue?
    ensures r.Some? && r.value.Done? ==>
      && r.value.value.state == Apply(p.impl, p.ret, b.state).value
      && |r.value.value.values| == |b.values|
      && (forall j :: 0 <= j < |b.values| && p.fields[j].Copy? ==> r.value.value.values[j] == b.values[j])
      && r.value.value.values[p.index].Some?
      && Declared(r.value.value.values[p.index].value, true)
  {
    if |p.fields| != |b.values| || p.index >= |p.fields| || !p.fields[p.index].Stored? then None
    else
      match Apply(p.impl, p.ret, b.state)
      case None => None
      case Some(state) =>
        match StoredEntry(p, p.fields[p.index].store, arg, env)
        case None => None
        case Some(Err(e)) => Some(Failed(e))
        case Some(Ok(repr)) => Some(Done(Builder(state, Literal(p.fields, b.values, repr))))
  }

  /** Whether an argument fits the setter kind. */
  predicate ArgFits(kind: SetterKind, arg: Arg)
  {
    if kind == ValueSetter then arg.ValueArg? else arg.ProducerArg?
  }

  /** A struct literal that copies every field but one leaves every other
      field of the builder as it was. */
  lemma LiteralUpdates(fields: seq<FieldInit>, current: seq<Option<ValueRepr>>, i: nat, repr: ValueRepr)
    requires |fields| == |current| && i < |fields| && fields[i].Stored?
    requires forall j :: 0 <= j < |fields| && j != i ==> fields[j].Copy?
    ensures Literal(fields, current, repr) == current[i := Some(repr)]
  {
  }

  /** A setter call with an argument of the right shape on a builder with
      one value per field: it type-checks exactly when the field's slot is
      `()` and then never panics. It fails only for a value setter with a
      validator that rejects the value, with the message `Validation failed:
      ...`. Otherwise the returned builder has the type of
      `SetterTransition`, holds the stored representation in this field, and
      holds every other field unchanged. */
  lemma SetterCall(si: StructInput, p: SetterPlan, b: Builder, arg: Arg, env: Env)
    requires p in Plans(si)
    requires |b.state.slots| == NumFields(si) && |b.state.markers| == 2 && |b.values| == NumFields(si)
    requires ArgFits(p.kind, arg)
    ensures p.index < NumFields(si)
    ensures Call(p, b, arg, env).Some? <==> b.state.slots[p.index] == Unit
    ensures Call(p, b, arg, env).Some? ==> !Call(p, b, arg, env).value.Panicked?
    ensures Call(p, b, arg, env).Some? && Call(p, b, arg, env).value.Failed? ==>
      && p.kind == ValueSetter && AllFields(si)[p.index].attrs.validator.Some?
      && |Call(p, b, arg, env).value.error| >= 19 && Call(p, b, arg, env).value.error[..19] == "Validation failed: "
    ensures Call(p, b, arg, env).Some? && Call(p, b, arg, env).value.Done? ==>
      && Call(p, b, arg, env).value.value.state == Apply(p.impl, p.ret, b.state).value
      && Call(p, b, arg, env).value.value.values[..p.index] == b.values[..p.index]
      && Call(p, b, arg, env).value.value.values[p.index + 1..] == b.values[p.index + 1..]
      && Call(p, b, arg, env).value.value.values[p.index].Some?
  {
    PlansCover(si);
    assert PlanFor(si, p);
    SetterTransition(si, p, b.state);
    var f := AllFields(si)[p.index];
    var store := p.fields[p.index].store;
    assert store == StoreOf(f, p.kind);
    match StoredEntry(p, store, arg, env) {
      case None =>
        assert false;
      case Some(Err(e)) =>
        assert store.StoreValidatedValue?;
      case Some(Ok(repr)) =>
        if Apply(p.impl, p.ret, b.state).Some? {
          LiteralUpdates(p.fields, b.values, p.index, repr);
        }
    }
  }

  /** What each setter stores: the converted value for a value setter, the
      validator's output for a validated one; the producer for `_lazy` and
      `_async`, wrapped with the validator when the field has one. */
  lemma StoredRepresentation(si: StructInput, p: SetterPlan, arg: Arg, env: Env)
    requires p in Plans(si)
    requires ArgFits(p.kind, arg)
    ensures p.index < NumFields(si) && |p.fields| == NumFields(si) && p.fields[p.index].Stored?
    ensures var validator := AllFields(si)[p.index].attrs.validator;
      StoredEntry(p, p.fields[p.index].store, arg, env) == match p.kind
        case ValueSetter =>
          var v := if p.useInto then env.convert(AllFields(si)[p.index].ty, arg.v) else arg.v;
          if validator.None? then Some(Ok(Value(v)))
          else (match env.validate(validator.value, v)
                case Ok(x) => Some(Ok(Value(x)))
                case Err(e) => Some(Err("Validation failed: " + env.debug(e))))
        case LazySetter =>
          Some(Ok(if validator.None? then Lazy(arg.p) else LazyValidated(Validated(validator.value, arg.p))))
        case AsyncSetter =>
          Some(Ok(if validator.None? then Async(arg.p) else AsyncValidated(Validated(validator.value, arg.p))))
  {
    PlansCover(si);
    assert PlanFor(si, p);
  }
}
