/** The `build` methods of the current generator
    (builder-pattern-macro/src/builder/builder_impl.rs). A synchronous
    `build` is emitted when every field can be set synchronously, an
    asynchronous one when some field has an async setter. Each is declared on
    the builder type whose required slots hold their field types, whose
    optional slots are free, and whose async marker is `()` (sync) or
    `AsyncBuilderMarker` (async). Fields that carry a validator and a lazy or
    async setter are validated in `build`. */
module BuilderImpls {
  import opened Wrappers
  import opened Seqs
  import opened Attributes
  import opened Fields
  import opened StructInputs
  import opened TypeState
  import opened Setter
  import opened BuilderFunctions
  import DefaultGenerics

  /** The field can be set synchronously. */
  predicate HasSyncSetter(f: Field)
  {
    VALUE in f.attrs.setters || LAZY in f.attrs.setters
  }

  predicate HasAsyncSetter(f: Field)
  {
    ASYNC in f.attrs.setters
  }

  /** `optional_generics`: the slot variables of the optional fields,
      numbered after the required ones. */
  function OptionalGenerics(si: StructInput): (r: seq<GenName>)
    ensures r == AllGenerics(si)[|si.requiredFields|..]
  {
    var offset := |si.requiredFields| + 1;
    seq(|si.optionalFields|, i requires 0 <= i < |si.optionalFields| => TyBuilderPattern(i + offset))
  }

  /** `satified_generics`: each required slot fixed to its field type, each
      optional slot its own variable. */
  function SatisfiedGenerics(si: StructInput): (r: seq<Pat>)
    ensures |r| == NumFields(si)
    ensures forall k :: 0 <= k < |si.requiredFields| ==> r[k] == Lit(Ty(si.requiredFields[k].ty))
    ensures forall k :: |si.requiredFields| <= k < NumFields(si) ==> r[k] == Var(AllGenerics(si)[k])
  {
    Map(si.requiredFields, (f: Field) => Lit(Ty(f.ty))) + SlotVars(OptionalGenerics(si))
  }

  /** The builder type a `build` is declared on; the one marker listed is
      the async marker. */
  function BuildHeader(si: StructInput, marker: TypeArg): (h: Header)
    ensures |h.slots| == NumFields(si) && h.markers == [Lit(marker)]
    ensures forall k :: 0 <= k < |si.requiredFields| ==> h.slots[k] == Lit(Ty(si.requiredFields[k].ty))
    ensures forall k :: |si.requiredFields| <= k < NumFields(si) ==> h.slots[k].Var?
  {
    Header(SatisfiedGenerics(si), [Lit(marker)])
  }

  /** Every required slot holds its field type. */
  predicate RequiredSet(si: StructInput, s: State)
    requires |s.slots| == NumFields(si)
  {
    forall k :: 0 <= k < |si.requiredFields| ==> s.slots[k] == Ty(si.requiredFields[k].ty)
  }

  /** The positions of a `build` header: the required slots fixed, the
      optional ones free and distinct, the async marker fixed. */
  lemma BuildPats(si: StructInput, marker: TypeArg)
    ensures |Flat(BuildHeader(si, marker))| == NumFields(si) + 1
    ensures forall k :: 0 <= k < |si.requiredFields| ==> Flat(BuildHeader(si, marker))[k] == Lit(Ty(si.requiredFields[k].ty))
    ensures forall k :: |si.requiredFields| <= k < NumFields(si) ==> Flat(BuildHeader(si, marker))[k] == Var(TyBuilderPattern(k + 1))
    ensures Flat(BuildHeader(si, marker))[NumFields(si)] == Lit(marker)
    ensures DistinctVars(Flat(BuildHeader(si, marker)))
  {
    var pats := Flat(BuildHeader(si, marker));
    forall i, j | 0 <= i < j < |pats| && pats[i].Var? ensures pats[i] != pats[j] {
      assert pats[i] == Var(TyBuilderPattern(i + 1));
    }
  }

  /** A `build` can be called exactly on builders whose required slots are
      set and whose async marker is the one it names, whatever the optional
      slots and the validator marker hold. */
  lemma BuildApplies(si: StructInput, s: State, marker: TypeArg)
    requires |s.slots| == NumFields(si) && |s.markers| == 2
    ensures Applies(BuildHeader(si, marker), s) <==> RequiredSet(si, s) && s.markers[0] == marker
  {
    var h := BuildHeader(si, marker);
    var pats := Flat(h);
    var args := Args(h, s);
    var R := |si.requiredFields|;
    var N := NumFields(si);
    BuildPats(si, marker);
    assert args == s.slots + [s.markers[0]];
    MatchesDistinct(pats, args);
    if RequiredSet(si, s) && s.markers[0] == marker {
      forall k | 0 <= k < |pats| && pats[k].Lit? ensures args[k] == pats[k].arg {
        if k < N {
          assert k < R;
        }
      }
    }
    if Matches(pats, args) {
      forall k | 0 <= k < R ensures s.slots[k] == Ty(si.requiredFields[k].ty) {
        assert pats[k].Lit?;
      }
      assert pats[N].Lit?;
    }
  }

  /** The impl of a `build` declares exactly the optional slot variables. */
  lemma BuildDeclares(si: StructInput, marker: TypeArg)
    ensures forall n :: n in OptionalGenerics(si) <==> Var(n) in Flat(BuildHeader(si, marker))
  {
    var pats := Flat(BuildHeader(si, marker));
    var opt := OptionalGenerics(si);
    var R := |si.requiredFields|;
    BuildPats(si, marker);
    forall n | Var(n) in pats ensures n in opt {
      var k :| 0 <= k < |pats| && pats[k] == Var(n);
      assert R <= k < NumFields(si);
      assert opt[k - R] == n;
    }
    forall n | n in opt ensures Var(n) in pats {
      var i :| 0 <= i < |opt| && opt[i] == n;
      assert pats[R + i] == Var(n);
    }
  }

  /** No builder can call both the synchronous and the asynchronous
      `build`. */
  lemma BuildsExclusive(si: StructInput, s: State)
    requires |s.slots| == NumFields(si) && |s.markers| == 2
    ensures !(Applies(BuildHeader(si, Unit), s) && Applies(BuildHeader(si, AsyncBuilderMarker), s))
  {
    BuildApplies(si, s, Unit);
    BuildApplies(si, s, AsyncBuilderMarker);
  }

  /** The field is validated in `build`: it has a validator and a lazy or
      async setter, so its value may be a producer the validator has to be
      applied to. */
  predicate NeedsValidation(f: Field)
  {
    (LAZY in f.attrs.setters || ASYNC in f.attrs.setters) && f.attrs.validator.Some?
  }

  /** The slots of the first `n` fields that need validation, in order. */
  function ValidatedPrefix(si: StructInput, n: nat): (r: seq<nat>)
    requires n <= NumFields(si)
    ensures forall k :: k in r ==> k < n
    ensures forall k :: 0 <= k < n ==> (k in r <==> NeedsValidation(AllFields(si)[k]))
    ensures forall a, b :: 0 <= a < b < |r| ==> r[a] < r[b]
  {
    if n == 0 then []
    else
      var prev := ValidatedPrefix(si, n - 1);
      assert forall a :: 0 <= a < |prev| ==> prev[a] < n - 1 by {
        forall a | 0 <= a < |prev| ensures prev[a] < n - 1 {
          assert prev[a] in prev;
        }
      }
      prev + (if NeedsValidation(AllFields(si)[n - 1]) then [n - 1] else [])
  }

  /** An entry of the record literal `build` writes. */
  datatype InitArg =
    | Unwrap(ident: string)  // `ident: match self.ident.unwrap() { Value(v) => v, Lazy(f) => f(), _ => unreachable!() }`
    | Bound(ident: string)   // `ident`, a variable bound earlier in `build`

  /** `struct_init_args`: every field unwrapped in place. */
  function StructInitArgs(si: StructInput): (r: seq<InitArg>)
    ensures |r| == NumFields(si)
    ensures forall k :: 0 <= k < |r| ==> r[k] == Unwrap(AllFields(si)[k].ident)
  {
    Map(AllFields(si), (f: Field) => Unwrap(f.ident))
  }

  /** `get_setter_meta`: collects the fields that need validation and
      replaces their record entries by the variables the validation binds. */
  method GetSetterMeta(si: StructInput, structInitArgs: seq<InitArg>) returns (validated: seq<nat>, newArgs: seq<InitArg>)
    requires |structInitArgs| == NumFields(si)
    ensures validated == ValidatedPrefix(si, NumFields(si))
    ensures |newArgs| == NumFields(si)
    ensures forall k :: 0 <= k < NumFields(si) ==>
      newArgs[k] == if NeedsValidation(AllFields(si)[k]) then Bound(AllFields(si)[k].ident) else structInitArgs[k]
  {
    var fields := AllFields(si);
    validated := [];
    newArgs := structInitArgs;
    var index := 0;
    while index < |fields|
      invariant 0 <= index <= |fields|
      invariant validated == ValidatedPrefix(si, index)
      invariant |newArgs| == |fields|
      invariant forall k :: 0 <= k < |fields| ==>
        newArgs[k] == if k < index && NeedsValidation(fields[k]) then Bound(fields[k].ident) else structInitArgs[k]
    {
      var f := fields[index];
      if (LAZY in f.attrs.setters || ASYNC in f.attrs.setters) && f.attrs.validator.Some? {
        validated := validated + [index];
        newArgs := newArgs[index := Bound(f.ident)];
      }
      index := index + 1;
    }
  }

  /** How a `let` of `build` resolves a field. */
  datatype LetKind =
    | ValidatedSync   // `match self.f.unwrap() { Lazy(f) => f(), Value(v) => Ok(v), _ => unreachable!() }?`
    | ValidatedAsync  // the same with `Async(f) => f().await`
    | PlainAsync      // `match self.f.unwrap() { Lazy(f) => f(), Value(v) => v, Async(f) => f().await }`

  /** `let ident = ...;` for the field at `index`. */
  datatype Let = Let(index: nat, kind: LetKind)

  /** An emitted `build`: the variables its impl declares, the builder type
      it is declared on, whether it returns a `Result`, the `let`s run first
      and the record literal. */
  datatype BuildPlan = BuildPlan(
    isAsync: bool,
    declared: seq<GenName>,
    header: Header,
    returnsResult: bool,
    lets: seq<Let>,
    initArgs: seq<InitArg>)

  /** The `let`s of the synchronous `build`, one per validated field. */
  function SyncLets(validated: seq<nat>): (r: seq<Let>)
    ensures |r| == |validated|
    ensures forall i :: 0 <= i < |r| ==> r[i] == Let(validated[i], ValidatedSync)
  {
    Map(validated, (k: nat) => Let(k, ValidatedSync))
  }

  /** The synchronous `build` of `write_sync_builder`. Without validated
      fields it returns the record; otherwise it validates them first and
      returns `Result`. */
  function SyncBuildPlan(si: StructInput): (p: BuildPlan)
    ensures !p.isAsync && p.header == BuildHeader(si, Unit) && p.declared == OptionalGenerics(si)
    ensures p.returnsResult <==> p.lets != []
    ensures |p.initArgs| == NumFields(si)
  {
    var validated := ValidatedPrefix(si, NumFields(si));
    BuildPlan(false, OptionalGenerics(si), BuildHeader(si, Unit), validated != [],
      SyncLets(validated),
      seq(NumFields(si), k requires 0 <= k < NumFields(si) =>
        if NeedsValidation(AllFields(si)[k]) then Bound(AllFields(si)[k].ident) else Unwrap(AllFields(si)[k].ident)))
  }

  /** The synchronous `build` returns a `Result` exactly when some field
      needs validation; it runs one `let` per such field, in slot order, and
      its record takes those fields from the `let`s and unwraps every other
      one in place. */
  lemma SyncBuildPlanShape(si: StructInput)
    ensures SyncBuildPlan(si).returnsResult <==> exists k :: 0 <= k < NumFields(si) && NeedsValidation(AllFields(si)[k])
    ensures forall i :: 0 <= i < |SyncBuildPlan(si).lets| ==>
      && SyncBuildPlan(si).lets[i].kind == ValidatedSync
      && SyncBuildPlan(si).lets[i].index < NumFields(si)
      && NeedsValidation(AllFields(si)[SyncBuildPlan(si).lets[i].index])
    ensures forall i, j :: 0 <= i < j < |SyncBuildPlan(si).lets| ==> SyncBuildPlan(si).lets[i].index < SyncBuildPlan(si).lets[j].index
    ensures forall k :: 0 <= k < NumFields(si) ==>
      && SyncBuildPlan(si).initArgs[k].ident == AllFields(si)[k].ident
      && (SyncBuildPlan(si).initArgs[k].Bound? <==> NeedsValidation(AllFields(si)[k]))
  {
    var validated := ValidatedPrefix(si, NumFields(si));
    forall i | 0 <= i < |validated| ensures validated[i] < NumFields(si) && NeedsValidation(AllFields(si)[validated[i]]) {
      assert validated[i] in validated;
    }
    if validated != [] {
      assert validated[0] in validated;
    }
  }

  /** The kind of `let` the asynchronous `build` uses for a field. */
  function AsyncLetKind(f: Field): LetKind
  {
    if NeedsValidation(f) then ValidatedAsync else PlainAsync
  }

  /** The asynchronous `build` of `write_async_builder`: one `let` per field
      in order, then the record of the bound variables; always a `Result`. */
  function AsyncBuildPlan(si: StructInput): (p: BuildPlan)
    ensures p.isAsync && p.returnsResult && p.header == BuildHeader(si, AsyncBuilderMarker) && p.declared == OptionalGenerics(si)
    ensures |p.lets| == |p.initArgs| == NumFields(si)
    ensures forall k :: 0 <= k < NumFields(si) ==>
      && p.lets[k].index == k
      && (p.lets[k].kind == ValidatedAsync <==> NeedsValidation(AllFields(si)[k]))
      && p.initArgs[k] == Bound(AllFields(si)[k].ident)
  {
    BuildPlan(true, OptionalGenerics(si), BuildHeader(si, AsyncBuilderMarker), true,
      seq(NumFields(si), k requires 0 <= k < NumFields(si) => Let(k, AsyncLetKind(AllFields(si)[k]))),
      Map(AllFields(si), (f: Field) => Bound(f.ident)))
  }

  /** `write_sync_builder`. */
  method WriteSyncBuilder(si: StructInput) returns (plan: BuildPlan)
    ensures plan == SyncBuildPlan(si)
  {
    var structInitArgs := StructInitArgs(si);
    var validated, args := GetSetterMeta(si, structInitArgs);
    assert args == SyncBuildPlan(si).initArgs;
    plan := BuildPlan(false, OptionalGenerics(si), BuildHeader(si, Unit), validated != [], SyncLets(validated), args);
  }

  /** `write_async_builder`: one pass over the fields producing the `let`s
      and the record entries together. */
  method WriteAsyncBuilder(si: StructInput) returns (plan: BuildPlan)
    ensures plan == AsyncBuildPlan(si)
  {
    var fields := AllFields(si);
    var structInitArgs: seq<InitArg> := [];
    var initFields: seq<Let> := [];
    var k := 0;
    while k < |fields|
      invariant 0 <= k <= |fields|
      invariant structInitArgs == Map(fields[..k], (f: Field) => Bound(f.ident))
      invariant |initFields| == k
      invariant forall j :: 0 <= j < k ==> initFields[j] == Let(j, AsyncLetKind(fields[j]))
    {
      var f := fields[k];
      structInitArgs := structInitArgs + [Bound(f.ident)];
      if (LAZY in f.attrs.setters || ASYNC in f.attrs.setters) && f.attrs.validator.Some? {
        initFields := initFields + [Let(k, ValidatedAsync)];
      } else {
        initFields := initFields + [Let(k, PlainAsync)];
      }
      k := k + 1;
    }
    assert fields[..k] == fields;
    plan := BuildPlan(true, OptionalGenerics(si), BuildHeader(si, AsyncBuilderMarker), true, initFields, structInitArgs);
  }

  /** `BuilderImpl::to_tokens`: sorts the fields into those with an async
      setter and those with a sync one, then emits the sync `build` when
      every field is in the second group and the async one when the first
      group is not empty. */
  method ToTokens(si: StructInput) returns (sync: Option<BuildPlan>, async_: Option<BuildPlan>)
    ensures sync.Some? <==> forall k :: 0 <= k < NumFields(si) ==> HasSyncSetter(AllFields(si)[k])
    ensures async_.Some? <==> exists k :: 0 <= k < NumFields(si) && HasAsyncSetter(AllFields(si)[k])
    ensures sync.Some? ==> sync.value == SyncBuildPlan(si)
    ensures async_.Some? ==> async_.value == AsyncBuildPlan(si)
  {
    var fields := AllFields(si);
    var asyncFields: seq<Field> := [];
    var syncFields: seq<Field> := [];
    var i := 0;
    while i < |fields|
      invariant 0 <= i <= |fields|
      invariant asyncFields == Filter(fields[..i], HasAsyncSetter)
      invariant syncFields == Filter(fields[..i], HasSyncSetter)
    {
      var f := fields[i];
      assert fields[..i + 1] == fields[..i] + [f];
      FilterSnoc(fields[..i], f, HasAsyncSetter);
      FilterSnoc(fields[..i], f, HasSyncSetter);
      if ASYNC in f.attrs.setters {
        asyncFields := asyncFields + [f];
      }
      if LAZY in f.attrs.setters || VALUE in f.attrs.setters {
        syncFields := syncFields + [f];
      }
      i := i + 1;
    }
    assert fields[..i] == fields;
    FilterKeepsAll(fields, HasSyncSetter);
    FilterDropsAll(fields, HasAsyncSetter);
    sync := None;
    async_ := None;
    if |syncFields| == NumFields(si) {
      var p := WriteSyncBuilder(si);
      sync := Some(p);
    }
    if asyncFields != [] {
      var p := WriteAsyncBuilder(si);
      async_ := Some(p);
    }
  }

  // ---- running a generated `build` ----

  const UnwrapNone := "called `Option::unwrap()` on a `None` value"
  const Unreachable := "internal error: entered unreachable code"
  /** A variant a `match` of the generated code has no arm for. */
  const NoArm := "no match arm for this variant"

  /** A validator's verdict as the `?`-like match of `build` sees it. */
  function FromResult(r: Result<Value>): (o: Outcome<Value>)
    ensures r.Ok? <==> o.Done?
    ensures r.Ok? ==> o.value == r.value
    ensures r.Err? ==> o == Failed(r.error)
  {
    match r
    case Ok(v) => Done(v)
    case Err(e) => Failed(e)
  }

  /** `struct_init_args`' match on one field, as written: only values and
      plain producers are handled. */
  function UnwrapArg(x: Option<ValueRepr>): (o: Outcome<Value>)
    ensures !o.Failed?
    ensures o.Done? <==> x.Some? && (x.value.Value? || x.value.Lazy?)
    ensures o.Done? ==> o.value == if x.value.Value? then x.value.v else x.value.f.output
    ensures x.None? ==> o == Panicked(UnwrapNone)
  {
    match x
    case None => Panicked(UnwrapNone)
    case Some(Value(v)) => Done(v)
    case Some(Lazy(f)) => Done(f.output)
    case _ => Panicked(Unreachable)
  }

  /** The `let`s of `build` on one field, as written. */
  function ResolveLet(kind: LetKind, x: Option<ValueRepr>, env: Env): (o: Outcome<Value>)
    ensures x.None? ==> o == Panicked(UnwrapNone)
    ensures x.Some? && x.value.Value? ==> o == Done(x.value.v)
    ensures x.Some? && (x.value.Default? || x.value.LateBoundDefault?) ==> o.Panicked?
    ensures o.Failed? ==>
      && kind != PlainAsync && x.Some?
      && (x.value.LazyValidated? || (kind == ValidatedAsync && x.value.AsyncValidated?))
      && Run(env, x.value.g) == Err(o.error)
    ensures kind == PlainAsync ==> (o.Done? <==> x.Some? && (x.value.Value? || x.value.Lazy? || x.value.Async?))
  {
    match (kind, x)
    case (_, None) => Panicked(UnwrapNone)
    case (ValidatedSync, Some(Value(v))) => Done(v)
    case (ValidatedSync, Some(LazyValidated(g))) => FromResult(Run(env, g))
    case (ValidatedSync, _) => Panicked(Unreachable)
    case (ValidatedAsync, Some(Value(v))) => Done(v)
    case (ValidatedAsync, Some(LazyValidated(g))) => FromResult(Run(env, g))
    case (ValidatedAsync, Some(AsyncValidated(g))) => FromResult(Run(env, g))
    case (PlainAsync, Some(Value(v))) => Done(v)
    case (PlainAsync, Some(Lazy(f))) => Done(f.output)
    case (PlainAsync, Some(Async(f))) => Done(f.output)
    case _ => Panicked(NoArm)
  }

  /** The kind of the field at slot `k`, as the hand expansion in
      builder-pattern/examples/default-generics.rs distinguishes them. */
  function CategoryOf(si: StructInput, k: nat): DefaultGenerics.Category
    requires k < NumFields(si)
  {
    var f := AllFields(si)[k];
    if k < |si.requiredFields| || f.attrs.default.None? then DefaultGenerics.Required
    else if f.attrs.lateBoundDefault then DefaultGenerics.LateBound(f.attrs.default.value.expr)
    else DefaultGenerics.EarlyBound(f.attrs.default.value.expr)
  }

  /** The intended match of `struct_init_args`: the resolution of the hand
      expansion, which also handles the defaults `new()` stores. */
  function CorrectedUnwrapArg(cat: DefaultGenerics.Category, x: Option<ValueRepr>, env: Env): Outcome<Value>
  {
    DefaultGenerics.Resolve(cat, x, env)
  }

  /** The intended `let`s: as written for the variants they handle, and the
      resolution of the hand expansion for the defaults `new()` stores. */
  function CorrectedResolveLet(kind: LetKind, cat: DefaultGenerics.Category, x: Option<ValueRepr>, env: Env): Outcome<Value>
  {
    match (kind, x)
    case (ValidatedSync, Some(LazyValidated(g))) => FromResult(Run(env, g))
    case (ValidatedAsync, Some(LazyValidated(g))) => FromResult(Run(env, g))
    case (ValidatedAsync, Some(AsyncValidated(g))) => FromResult(Run(env, g))
    case (PlainAsync, Some(Async(f))) => Done(f.output)
    case _ => DefaultGenerics.Resolve(cat, x, env)
  }

  /** Which reading of the field resolution a run uses. */
  datatype Semantics = AsWritten | Corrected

  function UnwrapWith(sem: Semantics, si: StructInput, k: nat, x: Option<ValueRepr>, env: Env): Outcome<Value>
    requires k < NumFields(si)
  {
    if sem == AsWritten then UnwrapArg(x) else CorrectedUnwrapArg(CategoryOf(si, k), x, env)
  }

  function LetWith(sem: Semantics, si: StructInput, kind: LetKind, k: nat, x: Option<ValueRepr>, env: Env): Outcome<Value>
    requires k < NumFields(si)
  {
    if sem == AsWritten then ResolveLet(kind, x, env) else CorrectedResolveLet(kind, CategoryOf(si, k), x, env)
  }

  /** A record entry never reports a validator error. */
  lemma UnwrapNeverFails(sem: Semantics, si: StructInput, k: nat, x: Option<ValueRepr>, env: Env)
    requires k < NumFields(si)
    ensures !UnwrapWith(sem, si, k, x, env).Failed?
  {
    DefaultGenerics.ResolveMeaning(DefaultGenerics.ExpField(CategoryOf(si, k), AllFields(si)[k].ty), x, env);
  }

  /** The value the `let`s bound for slot `k`. */
  function BoundValue(lets: seq<Let>, bound: seq<Value>, k: nat): Outcome<Value>
    requires |bound| == |lets|
  {
    if lets == [] then Panicked("cannot find value in this scope")
    else if lets[0].index == k then Done(bound[0])
    else BoundValue(lets[1..], bound[1..], k)
  }

  lemma {:induction false} BoundValueFound(lets: seq<Let>, bound: seq<Value>, i: nat)
    requires |bound| == |lets| && i < |lets|
    requires forall a, b :: 0 <= a < b < |lets| ==> lets[a].index != lets[b].index
    ensures BoundValue(lets, bound, lets[i].index) == Done(bound[i])
  {
    if i > 0 {
      BoundValueFound(lets[1..], bound[1..], i - 1);
    }
  }

  /** The well-formed plans: one value per field, `let`s on existing
      slots. */
  predicate Runnable(si: StructInput, plan: BuildPlan, b: Builder)
  {
    && |b.values| == NumFields(si)
    && |plan.initArgs| == NumFields(si)
    && forall i :: 0 <= i < |plan.lets| ==> plan.lets[i].index < NumFields(si)
  }

  /** The outcomes of the `let`s, in order. */
  function LetOutcomes(sem: Semantics, si: StructInput, plan: BuildPlan, b: Builder, env: Env): (r: seq<Outcome<Value>>)
    requires Runnable(si, plan, b)
    ensures |r| == |plan.lets|
  {
    seq(|plan.lets|, i requires 0 <= i < |plan.lets| =>
      LetWith(sem, si, plan.lets[i].kind, plan.lets[i].index, b.values[plan.lets[i].index], env))
  }

  /** The outcomes of the record entries, given the bound variables. */
  function EntryOutcomes(sem: Semantics, si: StructInput, plan: BuildPlan, b: Builder, bound: seq<Value>, env: Env): (r: seq<Outcome<Value>>)
    requires Runnable(si, plan, b) && |bound| == |plan.lets|
    ensures |r| == NumFields(si)
  {
    seq(NumFields(si), k requires 0 <= k < NumFields(si) =>
      if plan.initArgs[k].Unwrap? then UnwrapWith(sem, si, k, b.values[k], env) else BoundValue(plan.lets, bound, k))
  }

  /** Calling a generated `build` on builder `b`: `None` when the call does
      not type-check; otherwise the `let`s run in order, the first one that
      fails or panics ends the build, and then the record entries are
      evaluated in order. The result holds the record's field values in slot
      order. */
  function RunBuild(sem: Semantics, si: StructInput, plan: BuildPlan, b: Builder, env: Env): (r: Option<Outcome<seq<Value>>>)
    requires Runnable(si, plan, b)
    ensures r.Some? <==> Applies(plan.header, b.state)
    ensures r.Some? && !Collect(LetOutcomes(sem, si, plan, b, env)).Done? ==>
      exists i :: 0 <= i < |plan.lets| && !LetOutcomes(sem, si, plan, b, env)[i].Done? && r.value == Stop(LetOutcomes(sem, si, plan, b, env)[i])
    ensures r.Some? && r.value.Done? ==> Collect(LetOutcomes(sem, si, plan, b, env)).Done? && |r.value.value| == NumFields(si)
  {
    if !Applies(plan.header, b.state) then None
    else
      match Collect(LetOutcomes(sem, si, plan, b, env))
      case Done(bound) => Some(Collect(EntryOutcomes(sem, si, plan, b, bound, env)))
      case o => Some(Stop(o))
  }

  /** How the synchronous `build` resolves slot `k`. */
  function SyncField(sem: Semantics, si: StructInput, k: nat, x: Option<ValueRepr>, env: Env): Outcome<Value>
    requires k < NumFields(si)
  {
    if NeedsValidation(AllFields(si)[k]) then LetWith(sem, si, ValidatedSync, k, x, env) else UnwrapWith(sem, si, k, x, env)
  }

  /** How the asynchronous `build` resolves slot `k`. */
  function AsyncField(sem: Semantics, si: StructInput, k: nat, x: Option<ValueRepr>, env: Env): Outcome<Value>
    requires k < NumFields(si)
  {
    LetWith(sem, si, AsyncLetKind(AllFields(si)[k]), k, x, env)
  }

  lemma SyncBuildPlanRunnable(si: StructInput, b: Builder)
    requires |b.values| == NumFields(si)
    ensures Runnable(si, SyncBuildPlan(si), b)
  {
    var validated := ValidatedPrefix(si, NumFields(si));
    forall i | 0 <= i < |validated| ensures validated[i] < NumFields(si) {
      assert validated[i] in validated;
    }
  }

  /** Once the `let`s of the synchronous `build` succeed, every record entry
      is the field's own resolution, so the record is built exactly when
      every field resolves, and it cannot fail any more. */
  lemma SyncLetsDone(sem: Semantics, si: StructInput, b: Builder, bound: seq<Value>, env: Env)
    requires Runnable(si, SyncBuildPlan(si), b)
    requires Collect(LetOutcomes(sem, si, SyncBuildPlan(si), b, env)) == Done(bound)
    ensures Collect(EntryOutcomes(sem, si, SyncBuildPlan(si), b, bound, env)).Done? <==>
      forall k :: 0 <= k < NumFields(si) ==> SyncField(sem, si, k, b.values[k], env).Done?
    ensures Collect(EntryOutcomes(sem, si, SyncBuildPlan(si), b, bound, env)).Done? ==>
      var vals := Collect(EntryOutcomes(sem, si, SyncBuildPlan(si), b, bound, env)).value;
      |vals| == NumFields(si) && forall k :: 0 <= k < NumFields(si) ==> SyncField(sem, si, k, b.values[k], env) == Done(vals[k])
    ensures !Collect(EntryOutcomes(sem, si, SyncBuildPlan(si), b, bound, env)).Failed?
    ensures !Collect(EntryOutcomes(sem, si, SyncBuildPlan(si), b, bound, env)).Done? ==> exists k ::
      && 0 <= k < NumFields(si)
      && !SyncField(sem, si, k, b.values[k], env).Done?
      && SyncField(sem, si, k, b.values[k], env) == Stop(Collect(EntryOutcomes(sem, si, SyncBuildPlan(si), b, bound, env)))
  {
    var entries := EntryOutcomes(sem, si, SyncBuildPlan(si), b, bound, env);
    SyncEntries(sem, si, b, bound, env);
    if !Collect(entries).Done? {
      var k :| 0 <= k < |entries| && !entries[k].Done? && Collect(entries) == Stop(entries[k]);
      UnwrapNeverFails(sem, si, k, b.values[k], env);
    }
  }

  /** After the `let`s succeeded, each record entry of the synchronous
      `build` is its field's resolution, and the validated fields' entries
      succeed. */
  lemma SyncEntries(sem: Semantics, si: StructInput, b: Builder, bound: seq<Value>, env: Env)
    requires Runnable(si, SyncBuildPlan(si), b)
    requires Collect(LetOutcomes(sem, si, SyncBuildPlan(si), b, env)) == Done(bound)
    ensures forall k :: 0 <= k < NumFields(si) ==>
      EntryOutcomes(sem, si, SyncBuildPlan(si), b, bound, env)[k] == SyncField(sem, si, k, b.values[k], env)
    ensures forall k :: 0 <= k < NumFields(si) && NeedsValidation(AllFields(si)[k]) ==>
      EntryOutcomes(sem, si, SyncBuildPlan(si), b, bound, env)[k].Done?
  {
    var plan := SyncBuildPlan(si);
    var validated := ValidatedPrefix(si, NumFields(si));
    var outs := LetOutcomes(sem, si, plan, b, env);
    var entries := EntryOutcomes(sem, si, plan, b, bound, env);
    forall k | 0 <= k < NumFields(si)
      ensures entries[k] == SyncField(sem, si, k, b.values[k], env)
      ensures NeedsValidation(AllFields(si)[k]) ==> entries[k].Done?
    {
      if NeedsValidation(AllFields(si)[k]) {
        assert k in validated;
        var i :| 0 <= i < |validated| && validated[i] == k;
        BoundValueFound(plan.lets, bound, i);
        assert outs[i] == SyncField(sem, si, k, b.values[k], env);
      }
    }
  }

  /** The `i`-th `let` of the synchronous `build` resolves the `i`-th
      validated field. */
  lemma SyncLetAt(sem: Semantics, si: StructInput, b: Builder, env: Env, i: nat)
    requires Runnable(si, SyncBuildPlan(si), b)
    requires i < |ValidatedPrefix(si, NumFields(si))|
    ensures ValidatedPrefix(si, NumFields(si))[i] < NumFields(si)
    ensures NeedsValidation(AllFields(si)[ValidatedPrefix(si, NumFields(si))[i]])
    ensures LetOutcomes(sem, si, SyncBuildPlan(si), b, env)[i] ==
      SyncField(sem, si, ValidatedPrefix(si, NumFields(si))[i], b.values[ValidatedPrefix(si, NumFields(si))[i]], env)
  {
    var validated := ValidatedPrefix(si, NumFields(si));
    assert validated[i] in validated;
  }

  /** A validated field before the `i`-th one is an earlier `let`. */
  lemma ValidatedBefore(si: StructInput, i: nat, j: nat)
    requires i < |ValidatedPrefix(si, NumFields(si))|
    requires j < NumFields(si)
    requires j < ValidatedPrefix(si, NumFields(si))[i] && NeedsValidation(AllFields(si)[j])
    ensures exists i' :: 0 <= i' < i && ValidatedPrefix(si, NumFields(si))[i'] == j
  {
    var validated := ValidatedPrefix(si, NumFields(si));
    assert validated[i] in validated;
    assert j in validated;
    var i' :| 0 <= i' < |validated| && validated[i'] == j;
  }

  /** When a `let` of the synchronous `build` does not succeed, its outcome
      is the first validated field's in slot order that does not resolve. */
  lemma SyncLetsStop(sem: Semantics, si: StructInput, b: Builder, env: Env)
    requires Runnable(si, SyncBuildPlan(si), b)
    requires !Collect(LetOutcomes(sem, si, SyncBuildPlan(si), b, env)).Done?
    ensures SyncBuildPlan(si).returnsResult
    ensures exists k ::
      && 0 <= k < NumFields(si) && NeedsValidation(AllFields(si)[k])
      && SyncField(sem, si, k, b.values[k], env) == Stop(Collect(LetOutcomes(sem, si, SyncBuildPlan(si), b, env)))
      && !SyncField(sem, si, k, b.values[k], env).Done?
      && (forall j :: 0 <= j < k && NeedsValidation(AllFields(si)[j]) ==> SyncField(sem, si, j, b.values[j], env).Done?)
  {
    var plan := SyncBuildPlan(si);
    var validated := ValidatedPrefix(si, NumFields(si));
    var outs := LetOutcomes(sem, si, plan, b, env);
    var i :| 0 <= i < |outs| && !outs[i].Done? && Collect(outs) == Stop(outs[i])
      && forall j :: 0 <= j < i ==> outs[j].Done?;
    assert plan.lets != [];
    SyncLetAt(sem, si, b, env, i);
    var k := validated[i];
    assert SyncField(sem, si, k, b.values[k], env) == outs[i];
    EarlierLetsDone(sem, si, b, env, i);
  }

  /** When the `let`s before the `i`-th one succeed, every validated field
      before the `i`-th validated field resolves. */
  lemma EarlierLetsDone(sem: Semantics, si: StructInput, b: Builder, env: Env, i: nat)
    requires Runnable(si, SyncBuildPlan(si), b)
    requires i < |ValidatedPrefix(si, NumFields(si))|
    requires forall j :: 0 <= j < i ==> LetOutcomes(sem, si, SyncBuildPlan(si), b, env)[j].Done?
    ensures forall j :: 0 <= j < ValidatedPrefix(si, NumFields(si))[i] && NeedsValidation(AllFields(si)[j]) ==>
      SyncField(sem, si, j, b.values[j], env).Done?
  {
    var validated := ValidatedPrefix(si, NumFields(si));
    SyncLetAt(sem, si, b, env, i);
    forall j | 0 <= j < validated[i] && NeedsValidation(AllFields(si)[j]) ensures SyncField(sem, si, j, b.values[j], env).Done? {
      ValidatedBefore(si, i, j);
      var i' :| 0 <= i' < i && validated[i'] == j;
      SyncLetAt(sem, si, b, env, i');
    }
  }

  /** The synchronous `build`: callable exactly when the required slots are
      set and no async setter was used. It yields a record exactly when
      every field resolves, each record field being its field's resolution.
      A validator error can only come from a validated field, and it is the
      first one in slot order among them that does not resolve. Without
      validated fields `build` cannot fail. */
  lemma SyncBuild(sem: Semantics, si: StructInput, b: Builder, env: Env)
    requires |b.values| == NumFields(si) && |b.state.slots| == NumFields(si) && |b.state.markers| == 2
    ensures Runnable(si, SyncBuildPlan(si), b)
    ensures RunBuild(sem, si, SyncBuildPlan(si), b, env).Some? <==> RequiredSet(si, b.state) && b.state.markers[0] == Unit
    ensures RunBuild(sem, si, SyncBuildPlan(si), b, env).Some? ==>
      (RunBuild(sem, si, SyncBuildPlan(si), b, env).value.Done? <==>
         forall k :: 0 <= k < NumFields(si) ==> SyncField(sem, si, k, b.values[k], env).Done?)
    ensures RunBuild(sem, si, SyncBuildPlan(si), b, env).Some? && RunBuild(sem, si, SyncBuildPlan(si), b, env).value.Done? ==>
      var vals := RunBuild(sem, si, SyncBuildPlan(si), b, env).value.value;
      |vals| == NumFields(si) && forall k :: 0 <= k < NumFields(si) ==> SyncField(sem, si, k, b.values[k], env) == Done(vals[k])
    ensures RunBuild(sem, si, SyncBuildPlan(si), b, env).Some? && !RunBuild(sem, si, SyncBuildPlan(si), b, env).value.Done? ==> exists k ::
      && 0 <= k < NumFields(si)
      && !SyncField(sem, si, k, b.values[k], env).Done?
      && SyncField(sem, si, k, b.values[k], env) == Stop(RunBuild(sem, si, SyncBuildPlan(si), b, env).value)
    ensures RunBuild(sem, si, SyncBuildPlan(si), b, env).Some? && RunBuild(sem, si, SyncBuildPlan(si), b, env).value.Failed? ==>
      SyncBuildPlan(si).returnsResult &&
      (exists k :: 0 <= k < NumFields(si) && NeedsValidation(AllFields(si)[k])
        && SyncField(sem, si, k, b.values[k], env) == Stop(RunBuild(sem, si, SyncBuildPlan(si), b, env).value)
        && (forall j :: 0 <= j < k && NeedsValidation(AllFields(si)[j]) ==> SyncField(sem, si, j, b.values[j], env).Done?))
  {
    SyncBuildPlanRunnable(si, b);
    BuildApplies(si, b.state, Unit);
    var plan := SyncBuildPlan(si);
    if Applies(plan.header, b.state) {
      var outs := LetOutcomes(sem, si, plan, b, env);
      match Collect(outs) {
        case Done(bound) =>
          SyncLetsDone(sem, si, b, bound, env);
        case o =>
          SyncLetsStop(sem, si, b, env);
          assert RunBuild(sem, si, plan, b, env) == Some(Stop(o));
      }
    }
  }

  lemma AsyncBuildPlanRunnable(si: StructInput, b: Builder)
    requires |b.values| == NumFields(si)
    ensures Runnable(si, AsyncBuildPlan(si), b)
  {
  }

  /** The asynchronous `build`: callable exactly when the required slots are
      set and some async setter was used; it resolves every field in slot
      order, validated or not, and the first field that does not resolve
      decides the outcome. */
  lemma AsyncBuild(sem: Semantics, si: StructInput, b: Builder, env: Env)
    requires |b.values| == NumFields(si) && |b.state.slots| == NumFields(si) && |b.state.markers| == 2
    ensures Runnable(si, AsyncBuildPlan(si), b)
    ensures RunBuild(sem, si, AsyncBuildPlan(si), b, env).Some? <==> RequiredSet(si, b.state) && b.state.markers[0] == AsyncBuilderMarker
    ensures RunBuild(sem, si, AsyncBuildPlan(si), b, env).Some? ==>
      RunBuild(sem, si, AsyncBuildPlan(si), b, env).value ==
        Collect(seq(NumFields(si), k requires 0 <= k < NumFields(si) => AsyncField(sem, si, k, b.values[k], env)))
  {
    AsyncBuildPlanRunnable(si, b);
    BuildApplies(si, b.state, AsyncBuilderMarker);
    var plan := AsyncBuildPlan(si);
    var fieldOuts := seq(NumFields(si), k requires 0 <= k < NumFields(si) => AsyncField(sem, si, k, b.values[k], env));
    var outs := LetOutcomes(sem, si, plan, b, env);
    assert outs == fieldOuts;
    if Applies(plan.header, b.state) {
      match Collect(outs) {
        case Done(bound) =>
          var entries := EntryOutcomes(sem, si, plan, b, bound, env);
          forall k | 0 <= k < NumFields(si) ensures entries[k] == Done(bound[k]) {
            BoundValueFound(plan.lets, bound, k);
          }
          assert Collect(entries).value == bound;
        case o =>
          var k :| 0 <= k < |outs| && !outs[k].Done? && o == Stop(outs[k]);
          assert Stop<seq<Value>, seq<Value>>(o) == o;
      }
    }
  }

  /** A callable synchronous `build` whose fields resolve to outcomes that
      are never panics never panics either, and yields exactly those
      outcomes' values, or the error of one of them. */
  lemma SyncBuildMeets(sem: Semantics, si: StructInput, b: Builder, env: Env, expected: seq<Outcome<Value>>)
    requires |b.values| == NumFields(si) && |b.state.slots| == NumFields(si) && |b.state.markers| == 2
    requires Applies(BuildHeader(si, Unit), b.state)
    requires |expected| == NumFields(si)
    requires forall k :: 0 <= k < NumFields(si) ==> SyncField(sem, si, k, b.values[k], env) == expected[k] && !expected[k].Panicked?
    ensures Runnable(si, SyncBuildPlan(si), b)
    ensures var r := RunBuild(sem, si, SyncBuildPlan(si), b, env);
      && r.Some?
      && !r.value.Panicked?
      && (r.value.Done? <==> forall k :: 0 <= k < NumFields(si) ==> expected[k].Done?)
      && (r.value.Done? ==>
            && |r.value.value| == NumFields(si)
            && forall k :: 0 <= k < NumFields(si) ==> expected[k] == Done(r.value.value[k]))
      && (r.value.Failed? ==> exists k :: 0 <= k < NumFields(si) && expected[k] == Failed(r.value.error))
  {
    BuildApplies(si, b.state, Unit);
    SyncBuild(sem, si, b, env);
  }
}
