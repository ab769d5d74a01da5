/** The type-state builder of the earlier generators (src/struct_input.rs,
    src/struct_impl.rs, src/builder/functions.rs, src/builder/builder_impl.rs
    and src/structure.rs). A builder type has one slot per field and no
    marker parameters. `new()` fills every slot with `()`. Setter `i` is
    declared on the type whose slot `i` is `()` and returns the type whose
    slot `i` is the field type. `build` is declared on the type whose
    required slots hold their field types. At run time each builder field is
    an `Option` of the field's value, and `build` unwraps every one of them. */
module LegacyBuilders {
  import opened Wrappers
  import opened Seqs
  import opened TypeState
  import StructInputs
  import Setter

  type Value = Setter.Value
  type Env = Setter.Env

  /** The slot variables a generator declares: `TyBuilderPattern1..N`
      (src/struct_input.rs) or `U1..UN` (src/structure.rs). */
  datatype Family = TyBuilderPatternVars | UVars

  /** The slot variable numbered `k` (from 1). */
  function SlotName(fam: Family, k: nat): GenName
  {
    match fam
    case TyBuilderPatternVars => TyBuilderPattern(k)
    case UVars => U(k)
  }

  /** `all_generics`: the slot variables numbered 1 to `n`. */
  function AllGenerics(fam: Family, n: nat): (r: seq<GenName>)
    ensures |r| == n
    ensures forall k :: 0 <= k < n ==> r[k] == SlotName(fam, k + 1)
  {
    seq(n, k requires 0 <= k < n => SlotName(fam, k + 1))
  }

  /** `empty_generics`: `()` in every slot. */
  function EmptyGenerics(n: nat): (r: seq<TypeArg>)
    ensures |r| == n
    ensures forall k :: 0 <= k < n ==> r[k] == Unit
  {
    seq(n, _ => Unit)
  }

  /** `optional_generics`: `o` variables numbered from `r + 1`, which are
      the variables of the optional slots. */
  function OptionalGenerics(fam: Family, r: nat, o: nat): (g: seq<GenName>)
    ensures g == AllGenerics(fam, r + o)[r..]
  {
    var offset := r + 1;
    seq(o, i requires 0 <= i < o => SlotName(fam, i + offset))
  }

  /** `satified_generics`: the required field types, then the optional slot
      variables. */
  function SatisfiedGenerics(fam: Family, requiredTys: seq<string>, o: nat): (r: seq<Pat>)
    ensures |r| == |requiredTys| + o
    ensures forall k :: 0 <= k < |requiredTys| ==> r[k] == Lit(Ty(requiredTys[k]))
    ensures forall k :: |requiredTys| <= k < |r| ==> r[k] == Var(SlotName(fam, k + 1))
  {
    Map(requiredTys, (t: string) => Lit(Ty(t))) + StructInputs.SlotVars(OptionalGenerics(fam, |requiredTys|, o))
  }

  /** The builder type the `build` impl is declared on. */
  function BuildHeader(fam: Family, requiredTys: seq<string>, o: nat): Header
  {
    Header(SatisfiedGenerics(fam, requiredTys, o), [])
  }

  /** `build` can be called exactly on builders whose required slots hold
      their field types, whatever the optional slots hold; its impl declares
      exactly the optional slot variables, each once. */
  lemma BuildApplies(fam: Family, requiredTys: seq<string>, o: nat, s: State)
    requires |s.slots| == |requiredTys| + o
    ensures Applies(BuildHeader(fam, requiredTys, o), s) <==>
      forall k :: 0 <= k < |requiredTys| ==> s.slots[k] == Ty(requiredTys[k])
    ensures DistinctVars(Flat(BuildHeader(fam, requiredTys, o)))
    ensures forall n :: n in OptionalGenerics(fam, |requiredTys|, o) <==> Var(n) in Flat(BuildHeader(fam, requiredTys, o))
  {
    BuildAppliesIff(fam, requiredTys, o, s);
    BuildHeaderDistinct(fam, requiredTys, o);
    BuildHeaderVars(fam, requiredTys, o);
  }

  /** The variables of the `build` header are pairwise distinct. */
  lemma BuildHeaderDistinct(fam: Family, requiredTys: seq<string>, o: nat)
    ensures DistinctVars(Flat(BuildHeader(fam, requiredTys, o)))
  {
    var pats := Flat(BuildHeader(fam, requiredTys, o));
    assert pats == SatisfiedGenerics(fam, requiredTys, o);
    forall i, j | 0 <= i < j < |pats| && pats[i].Var? ensures pats[i] != pats[j] {
      assert pats[i] == Var(SlotName(fam, i + 1));
    }
  }

  lemma BuildAppliesIff(fam: Family, requiredTys: seq<string>, o: nat, s: State)
    requires |s.slots| == |requiredTys| + o
    ensures Applies(BuildHeader(fam, requiredTys, o), s) <==>
      forall k :: 0 <= k < |requiredTys| ==> s.slots[k] == Ty(requiredTys[k])
  {
    var r := |requiredTys|;
    var h := BuildHeader(fam, requiredTys, o);
    var pats := Flat(h);
    var args := Args(h, s);
    assert pats == SatisfiedGenerics(fam, requiredTys, o);
    assert args == s.slots;
    BuildHeaderDistinct(fam, requiredTys, o);
    MatchesDistinct(pats, args);
    if forall k :: 0 <= k < r ==> s.slots[k] == Ty(requiredTys[k]) {
      forall k | 0 <= k < |pats| && pats[k].Lit? ensures args[k] == pats[k].arg {
        assert k < r;
      }
    }
    if Matches(pats, args) {
      forall k | 0 <= k < r ensures s.slots[k] == Ty(requiredTys[k]) {
        assert pats[k].Lit?;
      }
    }
  }

  lemma BuildHeaderVars(fam: Family, requiredTys: seq<string>, o: nat)
    ensures forall n :: n in OptionalGenerics(fam, |requiredTys|, o) <==> Var(n) in Flat(BuildHeader(fam, requiredTys, o))
  {
    var r := |requiredTys|;
    var pats := Flat(BuildHeader(fam, requiredTys, o));
    assert pats == SatisfiedGenerics(fam, requiredTys, o);
    var opt := OptionalGenerics(fam, r, o);
    forall n | Var(n) in pats ensures n in opt {
      var k :| 0 <= k < |pats| && pats[k] == Var(n);
      assert opt[k - r] == n;
    }
    forall n | n in opt ensures Var(n) in pats {
      var i :| 0 <= i < |opt| && opt[i] == n;
      assert pats[r + i] == Var(n);
    }
  }

  // ---- setters ----

  /** What the setter walk needs of a field: its identifier and type, its
      `into` flag, its validator and whether it is hidden. */
  datatype SlotField = SlotField(ident: string, ty: string, useInto: bool, validator: Option<string>, hidden: bool)

  /** An entry of a setter's struct literal: `ident: self.ident` or
      `ident: Some(value.into())`. */
  datatype FieldInit = Copy(ident: string) | SetInto(ident: string)

  /** One emitted setter: its name, the slot it sets, the field type, whether
      it takes `IntoType: Into<T>`, its validator (with one it returns
      `Result<_, ()>`), the variables its impl declares, the impl header, the
      return type and the struct literal. */
  datatype SetterPlan = SetterPlan(
    name: string,
    index: nat,
    fieldTy: string,
    useInto: bool,
    validator: Option<string>,
    declared: seq<GenName>,
    impl: Header,
    ret: Header,
    fields: seq<FieldInit>)

  /** `all_builder_fields`: every field copied from `self`. */
  function CopyFields(fs: seq<SlotField>): (r: seq<FieldInit>)
    ensures |r| == |fs|
    ensures forall k :: 0 <= k < |fs| ==> r[k] == Copy(fs[k].ident)
  {
    Map(fs, (f: SlotField) => Copy(f.ident))
  }

  /** The slots with slot `i` the concrete `a` and every other slot `k` its
      variable numbered `k + 1`. */
  function SlotPats(fam: Family, n: nat, i: nat, a: TypeArg): (r: seq<Pat>)
    ensures |r| == n
  {
    seq(n, k requires 0 <= k < n => if k == i then Lit(a) else Var(SlotName(fam, k + 1)))
  }

  /** The setter of the field at slot `i`. */
  function PlanAt(fam: Family, fs: seq<SlotField>, i: nat): SetterPlan
    requires i < |fs|
  {
    var all := AllGenerics(fam, |fs|);
    var f := fs[i];
    SetterPlan(f.ident, i, f.ty, f.useInto, f.validator,
      all[..i] + all[i + 1..],
      Header(StructInputs.SlotVars(all)[i := Lit(Unit)], []),
      Header(StructInputs.SlotVars(all)[i := Lit(Ty(f.ty))], []),
      CopyFields(fs)[i := SetInto(f.ident)])
  }

  /** The walk skips field `i`: it honours `hidden` and the field is hidden. */
  predicate Skipped(fs: seq<SlotField>, honourHidden: bool, i: nat)
    requires i < |fs|
  {
    honourHidden && fs[i].hidden
  }

  /** The setters emitted for the first `n` fields. */
  function PlansPrefix(fam: Family, fs: seq<SlotField>, honourHidden: bool, n: nat): seq<SetterPlan>
    requires n <= |fs|
    decreases n, 0
  {
    if n == 0 then [] else PlansThrough(fam, fs, honourHidden, n - 1)
  }

  /** The setters emitted for the fields up to and including slot `i`. */
  function PlansThrough(fam: Family, fs: seq<SlotField>, honourHidden: bool, i: nat): seq<SetterPlan>
    requires i < |fs|
    decreases i, 1
  {
    PlansPrefix(fam, fs, honourHidden, i) + (if Skipped(fs, honourHidden, i) then [] else [PlanAt(fam, fs, i)])
  }

  function Plans(fam: Family, fs: seq<SlotField>, honourHidden: bool): seq<SetterPlan>
  {
    PlansPrefix(fam, fs, honourHidden, |fs|)
  }

  /** `builder_functions` (src/struct_input.rs, which sets every field) and
      `BuilderFunctions::to_tokens` (src/builder/functions.rs, which skips
      hidden fields but still advances the index): a walk over the fields in
      slot order with a mutable index. For each field, a copy of the slot
      variables with its own removed, two copies with its own slot replaced,
      and a copy of the builder fields with its own entry replaced. */
  method BuilderFunctions(fam: Family, fs: seq<SlotField>, honourHidden: bool) returns (plans: seq<SetterPlan>)
    ensures plans == Plans(fam, fs, honourHidden)
  {
    var allGenerics := AllGenerics(fam, |fs|);
    var allBuilderFields := CopyFields(fs);
    plans := [];
    var index := 0;
    while index < |fs|
      invariant 0 <= index <= |fs|
      invariant plans == PlansPrefix(fam, fs, honourHidden, index)
    {
      var f := fs[index];
      if honourHidden && f.hidden {
        index := index + 1;
        continue;
      }
      var otherGenerics := allGenerics[..index] + allGenerics[index + 1..];
      var beforeGenerics := StructInputs.SlotVars(allGenerics);
      beforeGenerics := beforeGenerics[index := Lit(Unit)];
      var afterGenerics := StructInputs.SlotVars(allGenerics);
      afterGenerics := afterGenerics[index := Lit(Ty(f.ty))];
      var builderFields := allBuilderFields;
      builderFields := builderFields[index := SetInto(f.ident)];
      plans := plans + [SetterPlan(f.ident, index, f.ty, f.useInto, f.validator, otherGenerics,
        Header(beforeGenerics, []), Header(afterGenerics, []), builderFields)];
      index := index + 1;
    }
  }

  /** The setters come in slot order, one per field that is not skipped,
      each the setter of its own field. */
  lemma {:induction false} PlansPrefixCover(fam: Family, fs: seq<SlotField>, honourHidden: bool, n: nat)
    requires n <= |fs|
    ensures forall p :: p in PlansPrefix(fam, fs, honourHidden, n) ==>
      p.index < n && !Skipped(fs, honourHidden, p.index) && p == PlanAt(fam, fs, p.index)
    ensures forall k :: 0 <= k < n && !Skipped(fs, honourHidden, k) ==> PlanAt(fam, fs, k) in PlansPrefix(fam, fs, honourHidden, n)
    ensures forall a, b :: 0 <= a < b < |PlansPrefix(fam, fs, honourHidden, n)| ==>
      PlansPrefix(fam, fs, honourHidden, n)[a].index < PlansPrefix(fam, fs, honourHidden, n)[b].index
  {
    if n > 0 {
      PlansPrefixCover(fam, fs, honourHidden, n - 1);
      var prev := PlansPrefix(fam, fs, honourHidden, n - 1);
      if !Skipped(fs, honourHidden, n - 1) {
        var all := prev + [PlanAt(fam, fs, n - 1)];
        assert PlansPrefix(fam, fs, honourHidden, n) == all;
        forall a, b | 0 <= a < b < |all| ensures all[a].index < all[b].index {
          assert all[a] in prev;
        }
      } else {
        assert PlansPrefix(fam, fs, honourHidden, n) == prev;
      }
    }
  }

  /** The whole walk: setter `k` is emitted exactly when field `k` is not
      skipped, and the setters are in slot order. */
  lemma PlansCover(fam: Family, fs: seq<SlotField>, honourHidden: bool)
    ensures forall p :: p in Plans(fam, fs, honourHidden) ==>
      p.index < |fs| && !Skipped(fs, honourHidden, p.index) && p == PlanAt(fam, fs, p.index)
    ensures forall k :: 0 <= k < |fs| ==> (PlanAt(fam, fs, k) in Plans(fam, fs, honourHidden) <==> !Skipped(fs, honourHidden, k))
    ensures forall a, b :: 0 <= a < b < |Plans(fam, fs, honourHidden)| ==>
      Plans(fam, fs, honourHidden)[a].index < Plans(fam, fs, honourHidden)[b].index
  {
    PlansPrefixCover(fam, fs, honourHidden, |fs|);
  }

  /** A walk that skips nothing emits setter `k` at position `k`, one per
      field. */
  lemma {:induction false} PlansAllSet(fam: Family, fs: seq<SlotField>, n: nat)
    requires n <= |fs|
    ensures |PlansPrefix(fam, fs, false, n)| == n
    ensures forall k :: 0 <= k < n ==> PlansPrefix(fam, fs, false, n)[k] == PlanAt(fam, fs, k)
  {
    if n > 0 {
      PlansAllSet(fam, fs, n - 1);
    }
  }

  /** When no field is hidden, honouring `hidden` changes nothing. */
  lemma {:induction false} NoHiddenSame(fam: Family, fs: seq<SlotField>, n: nat)
    requires n <= |fs|
    requires forall k :: 0 <= k < |fs| ==> !fs[k].hidden
    ensures PlansPrefix(fam, fs, true, n) == PlansPrefix(fam, fs, false, n)
  {
    if n > 0 {
      NoHiddenSame(fam, fs, n - 1);
    }
  }

  /** The setter of slot `i` names its field, takes `Into` exactly when the
      field says so, returns a `Result` exactly when it has a validator,
      writes `Some(value.into())` into its own field and copies every
      other. */
  lemma PlanFields(fam: Family, fs: seq<SlotField>, i: nat)
    requires i < |fs|
    ensures var p := PlanAt(fam, fs, i);
      && p.name == fs[i].ident && p.index == i && p.fieldTy == fs[i].ty
      && p.useInto == fs[i].useInto && p.validator == fs[i].validator
      && |p.fields| == |fs|
      && p.fields[i] == SetInto(fs[i].ident)
      && forall k :: 0 <= k < |fs| && k != i ==> p.fields[k] == Copy(fs[k].ident)
  {
  }

  lemma HeadersAreSlotPats(fam: Family, fs: seq<SlotField>, i: nat)
    requires i < |fs|
    ensures PlanAt(fam, fs, i).impl == Header(SlotPats(fam, |fs|, i, Unit), [])
    ensures PlanAt(fam, fs, i).ret == Header(SlotPats(fam, |fs|, i, Ty(fs[i].ty)), [])
  {
  }

  lemma SlotPatsDistinct(fam: Family, n: nat, i: nat, a: TypeArg)
    ensures DistinctVars(SlotPats(fam, n, i, a))
  {
    var pats := SlotPats(fam, n, i, a);
    forall x, y | 0 <= x < y < |pats| && pats[x].Var? ensures pats[x] != pats[y] {
      assert pats[x] == Var(SlotName(fam, x + 1));
    }
  }

  /** The impl of a setter declares exactly the variables its header uses,
      each once. */
  lemma DeclaredVars(fam: Family, fs: seq<SlotField>, i: nat)
    requires i < |fs|
    ensures DistinctVars(Flat(PlanAt(fam, fs, i).impl))
    ensures forall n :: n in PlanAt(fam, fs, i).declared <==> Var(n) in Flat(PlanAt(fam, fs, i).impl)
  {
    var p := PlanAt(fam, fs, i);
    var N := |fs|;
    var all := AllGenerics(fam, N);
    HeadersAreSlotPats(fam, fs, i);
    var pats := Flat(p.impl);
    assert pats == SlotPats(fam, N, i, Unit);
    SlotPatsDistinct(fam, N, i, Unit);
    forall n | n in p.declared ensures Var(n) in pats {
      var j :| 0 <= j < |p.declared| && p.declared[j] == n;
      if j < i {
        assert pats[j] == Var(n);
      } else {
        assert pats[j + 1] == Var(n);
      }
    }
    forall n | Var(n) in pats ensures n in p.declared {
      var j :| 0 <= j < |pats| && pats[j] == Var(n);
      if j < i {
        assert p.declared[j] == n;
      } else {
        assert p.declared[j - 1] == n;
      }
    }
  }

  /** A setter can be called exactly on builders whose slot is `()`; it
      sets that slot to the field type and keeps every other slot. */
  lemma {:induction false} SetterTransition(fam: Family, fs: seq<SlotField>, i: nat, s: State)
    requires i < |fs| && |s.slots| == |fs|
    ensures Apply(PlanAt(fam, fs, i).impl, PlanAt(fam, fs, i).ret, s).Some? <==> s.slots[i] == Unit
    ensures s.slots[i] == Unit ==>
      Apply(PlanAt(fam, fs, i).impl, PlanAt(fam, fs, i).ret, s).value == State(s.slots[i := Ty(fs[i].ty)], [])
  {
    var n := |fs|;
    var t := fs[i].ty;
    HeadersAreSlotPats(fam, fs, i);
    var h := Header(SlotPats(fam, n, i, Unit), []);
    var ret := Header(SlotPats(fam, n, i, Ty(t)), []);
    var pats := Flat(h);
    var args := Args(h, s);
    assert pats == SlotPats(fam, n, i, Unit);
    assert args == s.slots;
    SlotPatsDistinct(fam, n, i, Unit);
    MatchesDistinct(pats, args);
    if s.slots[i] == Unit {
      assert Matches(pats, args) by {
        forall k | 0 <= k < |pats| && pats[k].Lit? ensures args[k] == pats[k].arg {
          assert k == i;
        }
      }
      forall k | 0 <= k < n ensures Bind(ret.slots[k], pats, args) == Some(s.slots[i := Ty(t)][k]) {
        if k != i {
          assert ret.slots[k] == pats[k];
          BindVar(pats, args, k);
        }
      }
      var slots := Instantiate(ret.slots, pats, args);
      assert slots.value == s.slots[i := Ty(t)];
      assert Instantiate(ret.markers, pats, args) == Some([]);
    } else {
      assert !Matches(pats, args) by {
        assert args[i] != pats[i].arg;
      }
    }
  }

  // ---- the generated code at run time ----

  /** A builder value: its type and the contents of its fields. */
  datatype Builder = Builder(state: State, values: seq<Option<Value>>)

  /** What a setter call returns: the builder (directly, or in `Ok`), or
      `Err(())` when the validator rejects the value. */
  datatype Returned = Returned(b: Builder) | Rejected

  /** What the setter stores for argument `v`: `value.into()`, passed
      through the validator when there is one; `Err` when the validator
      rejects it. */
  function Stored(p: SetterPlan, v: Value, env: Env): (r: Result<Value>)
    ensures r.Err? ==> p.validator.Some?
    ensures p.validator.None? && !p.useInto ==> r == Ok(v)
  {
    var arg := if p.useInto then env.convert(p.fieldTy, v) else v;
    match p.validator
    case None => Ok(arg)
    case Some(validator) => env.validate(validator, arg)
  }

  /** The builder fields after a setter's struct literal. */
  function Literal(fields: seq<FieldInit>, current: seq<Option<Value>>, stored: Value): (r: seq<Option<Value>>)
    ensures |r| == |current|
  {
    seq(|current|, k requires 0 <= k < |current| => if k < |fields| && fields[k].SetInto? then Some(stored) else current[k])
  }

  /** Calling a setter on a builder: `None` when the call does not
      type-check. */
  function Call(p: SetterPlan, b: Builder, v: Value, env: Env): (r: Option<Returned>)
    ensures r.None? <==> Apply(p.impl, p.ret, b.state).None?
    ensures r == Some(Rejected) ==> p.validator.Some? && Stored(p, v, env).Err?
    ensures r.Some? && r.value.Returned? ==>
      && Stored(p, v, env).Ok?
      && r.value.b.state == Apply(p.impl, p.ret, b.state).value
      && |r.value.b.values| == |b.values|
      && forall k :: 0 <= k < |b.values| && !(k < |p.fields| && p.fields[k].SetInto?) ==> r.value.b.values[k] == b.values[k]
  {
    match Apply(p.impl, p.ret, b.state)
    case None => None
    case Some(s1) =>
      match Stored(p, v, env)
      case Ok(w) => Some(Returned(Builder(s1, Literal(p.fields, b.values, w))))
      case Err(_) => Some(Rejected)
  }

  /** A call type-checks exactly when the slot is `()`; it then returns the
      builder with the slot set and the value stored in its field alone, or
      `Err(())` when the validator rejects the value. */
  lemma CallStep(fam: Family, fs: seq<SlotField>, i: nat, b: Builder, v: Value, env: Env)
    requires i < |fs| && |b.state.slots| == |fs| && |b.values| == |fs|
    ensures Call(PlanAt(fam, fs, i), b, v, env).Some? <==> b.state.slots[i] == Unit
    ensures b.state.slots[i] == Unit && Stored(PlanAt(fam, fs, i), v, env).Ok? ==>
      Call(PlanAt(fam, fs, i), b, v, env) == Some(Returned(Builder(State(b.state.slots[i := Ty(fs[i].ty)], []),
        b.values[i := Some(Stored(PlanAt(fam, fs, i), v, env).value)])))
    ensures b.state.slots[i] == Unit && Stored(PlanAt(fam, fs, i), v, env).Err? ==>
      Call(PlanAt(fam, fs, i), b, v, env) == Some(Rejected) && fs[i].validator.Some?
  {
    var p := PlanAt(fam, fs, i);
    SetterTransition(fam, fs, i, b.state);
    PlanFields(fam, fs, i);
    if b.state.slots[i] == Unit && Stored(p, v, env).Ok? {
      assert Literal(p.fields, b.values, Stored(p, v, env).value) == b.values[i := Some(Stored(p, v, env).value)];
    }
  }

  /** The contents `new()` gives the builder fields: `None` for the `r`
      required fields, `Some` of the evaluated default for the optional
      ones. */
  function InitValues(r: nat, defaults: seq<string>, env: Env): (vs: seq<Option<Value>>)
    ensures |vs| == r + |defaults|
    ensures forall k :: 0 <= k < r ==> vs[k].None?
    ensures forall k :: r <= k < |vs| ==> vs[k] == Some(env.eval(defaults[k - r]))
  {
    seq(r, _ => None) + Map(defaults, (e: string) => Some(env.eval(e)))
  }

  /** The builder `new()` returns. */
  function NewBuilder(r: nat, defaults: seq<string>, env: Env): Builder
  {
    Builder(State(EmptyGenerics(r + |defaults|), []), InitValues(r, defaults, env))
  }

  const OptionUnwrapPanic := "called `Option::unwrap()` on a `None` value"

  /** `self.ident.unwrap()`. */
  function Unwrap(x: Option<Value>): Outcome<Value>
  {
    if x.None? then Panicked(OptionUnwrapPanic) else Done(x.value)
  }

  /** `build`: the record with every field unwrapped, in slot order. */
  function Build(values: seq<Option<Value>>): (r: Outcome<seq<Value>>)
    ensures !r.Failed?
    ensures r.Done? ==> |r.value| == |values| && forall k :: 0 <= k < |values| ==> values[k] == Some(r.value[k])
  {
    Collect(Map(values, Unwrap))
  }

  /** `build` returns the record exactly when every field holds a value,
      and the record holds those values; otherwise it panics. */
  lemma BuildOutcome(values: seq<Option<Value>>)
    ensures Build(values).Done? <==> forall k :: 0 <= k < |values| ==> values[k].Some?
    ensures Build(values).Done? ==> |Build(values).value| == |values|
    ensures Build(values).Done? ==> forall k :: 0 <= k < |values| ==> Some(Build(values).value[k]) == values[k]
    ensures !Build(values).Done? ==> Build(values) == Panicked(OptionUnwrapPanic)
  {
    var outs := Map(values, Unwrap);
    if !Build(values).Done? {
      var k :| 0 <= k < |outs| && !outs[k].Done? && Build(values) == Stop(outs[k]);
      assert outs[k] == Panicked(OptionUnwrapPanic);
    }
  }

  // ---- a whole session ----

  /** One setter call and its argument. */
  datatype Invocation = Invocation(plan: SetterPlan, v: Value)

  /** The builder type after the chain, as the compiler infers it; `None`
      when some call does not type-check. */
  function Typed(calls: seq<Invocation>, s: State): Option<State>
    decreases |calls|
  {
    if calls == [] then Some(s)
    else
      match Apply(calls[0].plan.impl, calls[0].plan.ret, s)
      case None => None
      case Some(s1) => Typed(calls[1..], s1)
  }

  /** Running the chain: `None` when a call does not type-check, otherwise
      the final builder or the first `Err(())`. */
  function RunSetters(calls: seq<Invocation>, b: Builder, env: Env): Option<Returned>
    decreases |calls|
  {
    if calls == [] then Some(Returned(b))
    else
      match Call(calls[0].plan, b, calls[0].v, env)
      case None => None
      case Some(Rejected) => Some(Rejected)
      case Some(Returned(b1)) => RunSetters(calls[1..], b1, env)
  }

  predicate Distinct(calls: seq<Invocation>)
  {
    forall i, j :: 0 <= i < j < |calls| ==> calls[i].plan.index != calls[j].plan.index
  }

  predicate Called(calls: seq<Invocation>, k: nat)
  {
    exists i :: 0 <= i < |calls| && calls[i].plan.index == k
  }

  /** Every call's setter accepts its argument. */
  predicate AllAccepted(calls: seq<Invocation>, env: Env)
  {
    forall i :: 0 <= i < |calls| ==> Stored(calls[i].plan, calls[i].v, env).Ok?
  }

  /** What the first call on slot `k` stores, if any accepts. */
  function ValueFor(calls: seq<Invocation>, k: nat, env: Env): Option<Value>
    decreases |calls|
  {
    if calls == [] then None
    else if calls[0].plan.index == k then
      (match Stored(calls[0].plan, calls[0].v, env) case Ok(w) => Some(w) case Err(_) => None)
    else ValueFor(calls[1..], k, env)
  }

  /** The builder type once the calls have been made: each called slot holds
      its field type. */
  function StateAfter(fs: seq<SlotField>, s: State, calls: seq<Invocation>): State
    requires |s.slots| == |fs|
  {
    State(seq(|fs|, k requires 0 <= k < |fs| => if Called(calls, k) then Ty(fs[k].ty) else s.slots[k]), [])
  }

  /** The builder fields once the calls have been made. */
  function ValuesAfter(values: seq<Option<Value>>, calls: seq<Invocation>, env: Env): seq<Option<Value>>
  {
    seq(|values|, k requires 0 <= k < |values| => if Called(calls, k) then ValueFor(calls, k, env) else values[k])
  }

  predicate FromPlans(fam: Family, fs: seq<SlotField>, honourHidden: bool, calls: seq<Invocation>)
  {
    forall i :: 0 <= i < |calls| ==> calls[i].plan in Plans(fam, fs, honourHidden)
  }

  lemma CalledStep(calls: seq<Invocation>, k: nat)
    requires calls != []
    ensures Called(calls, k) <==> calls[0].plan.index == k || Called(calls[1..], k)
  {
    if Called(calls[1..], k) {
      var i :| 0 <= i < |calls[1..]| && calls[1..][i].plan.index == k;
      assert calls[i + 1].plan.index == k;
    }
  }

  lemma FromPlansRest(fam: Family, fs: seq<SlotField>, honourHidden: bool, calls: seq<Invocation>)
    requires calls != [] && FromPlans(fam, fs, honourHidden, calls)
    ensures FromPlans(fam, fs, honourHidden, calls[1..])
    ensures calls[0].plan.index < |fs| && calls[0].plan == PlanAt(fam, fs, calls[0].plan.index)
  {
    PlansCover(fam, fs, honourHidden);
    assert calls[0].plan in Plans(fam, fs, honourHidden);
    forall i | 0 <= i < |calls[1..]| ensures calls[1..][i].plan in Plans(fam, fs, honourHidden) {
      assert calls[1..][i] == calls[i + 1];
    }
  }

  /** Setting a fresh slot keeps the remaining calls' conditions. */
  lemma FreshStep(calls: seq<Invocation>, slots: seq<TypeArg>, t: TypeArg)
    requires calls != [] && calls[0].plan.index < |slots| && t != Unit
    requires forall i :: 0 <= i < |calls| ==> calls[i].plan.index < |slots|
    ensures (Distinct(calls) && forall i :: 0 <= i < |calls| ==> slots[calls[i].plan.index] == Unit) <==>
      && slots[calls[0].plan.index] == Unit
      && Distinct(calls[1..])
      && forall i :: 0 <= i < |calls[1..]| ==> slots[calls[0].plan.index := t][calls[1..][i].plan.index] == Unit
  {
    var rest := calls[1..];
    var slots1 := slots[calls[0].plan.index := t];
    if slots[calls[0].plan.index] == Unit && Distinct(rest) && forall i :: 0 <= i < |rest| ==> slots1[rest[i].plan.index] == Unit {
      forall i, j | 0 <= i < j < |calls| ensures calls[i].plan.index != calls[j].plan.index {
        if i > 0 {
          assert rest[i - 1] == calls[i] && rest[j - 1] == calls[j];
        } else {
          assert slots1[rest[j - 1].plan.index] == Unit;
        }
      }
      forall i | 0 <= i < |calls| ensures slots[calls[i].plan.index] == Unit {
        if i > 0 {
          assert slots1[rest[i - 1].plan.index] == Unit;
        }
      }
    }
    if Distinct(calls) && forall i :: 0 <= i < |calls| ==> slots[calls[i].plan.index] == Unit {
      forall i | 0 <= i < |rest| ensures slots1[rest[i].plan.index] == Unit {
        assert calls[i + 1] == rest[i];
      }
    }
  }

  lemma IndicesInRange(fam: Family, fs: seq<SlotField>, honourHidden: bool, calls: seq<Invocation>)
    requires FromPlans(fam, fs, honourHidden, calls)
    ensures forall i :: 0 <= i < |calls| ==> calls[i].plan.index < |fs|
  {
    PlansCover(fam, fs, honourHidden);
  }

  /** A chain type-checks exactly when it sets distinct fields whose slots
      are still `()`, and its type is then `StateAfter`, whatever the order
      of the calls. */
  lemma {:induction false} TypedChain(fam: Family, fs: seq<SlotField>, honourHidden: bool, calls: seq<Invocation>, s: State)
    requires FromPlans(fam, fs, honourHidden, calls)
    requires |s.slots| == |fs| && s.markers == []
    ensures forall i :: 0 <= i < |calls| ==> calls[i].plan.index < |fs|
    ensures Typed(calls, s).Some? <==> Distinct(calls) && forall i :: 0 <= i < |calls| ==> s.slots[calls[i].plan.index] == Unit
    ensures Typed(calls, s).Some? ==> Typed(calls, s).value == StateAfter(fs, s, calls)
  {
    IndicesInRange(fam, fs, honourHidden, calls);
    if calls == [] {
      assert StateAfter(fs, s, calls).slots == s.slots;
    } else {
      var c := calls[0];
      var i := c.plan.index;
      FromPlansRest(fam, fs, honourHidden, calls);
      SetterTransition(fam, fs, i, s);
      FreshStep(calls, s.slots, Ty(fs[i].ty));
      if s.slots[i] == Unit {
        var s1 := State(s.slots[i := Ty(fs[i].ty)], []);
        TypedChain(fam, fs, honourHidden, calls[1..], s1);
        var a := StateAfter(fs, s, calls);
        var a1 := StateAfter(fs, s1, calls[1..]);
        forall k | 0 <= k < |fs| ensures a.slots[k] == a1.slots[k] {
          CalledStep(calls, k);
        }
        assert a.slots == a1.slots;
      }
    }
  }

  lemma ValueForStep(calls: seq<Invocation>, k: nat, env: Env)
    requires calls != [] && Distinct(calls) && calls[0].plan.index != k
    ensures ValueFor(calls, k, env) == ValueFor(calls[1..], k, env)
  {
  }

  /** The first call on its own slot stores its value. */
  lemma ValueForFirst(calls: seq<Invocation>, env: Env)
    requires calls != [] && Stored(calls[0].plan, calls[0].v, env).Ok?
    ensures ValueFor(calls, calls[0].plan.index, env) == Some(Stored(calls[0].plan, calls[0].v, env).value)
  {
  }

  /** A chain that type-checks returns a builder exactly when every setter
      accepts its argument, and otherwise `Err(())`. The builder has the
      inferred type and holds what each call stored in its field, the
      fields nobody set left as they were. */
  lemma {:induction false} RunChain(fam: Family, fs: seq<SlotField>, honourHidden: bool, calls: seq<Invocation>, b: Builder, env: Env)
    requires FromPlans(fam, fs, honourHidden, calls)
    requires |b.state.slots| == |fs| && b.state.markers == [] && |b.values| == |fs|
    requires Typed(calls, b.state).Some?
    ensures RunSetters(calls, b, env).Some?
    ensures RunSetters(calls, b, env).value.Returned? <==> AllAccepted(calls, env)
    ensures AllAccepted(calls, env) ==>
      RunSetters(calls, b, env).value.b == Builder(Typed(calls, b.state).value, ValuesAfter(b.values, calls, env))
  {
    TypedChain(fam, fs, honourHidden, calls, b.state);
    if calls == [] {
      assert ValuesAfter(b.values, calls, env) == b.values;
    } else {
      var c := calls[0];
      var i := c.plan.index;
      var rest := calls[1..];
      FromPlansRest(fam, fs, honourHidden, calls);
      CallStep(fam, fs, i, b, c.v, env);
      SetterTransition(fam, fs, i, b.state);
      var s1 := State(b.state.slots[i := Ty(fs[i].ty)], []);
      assert Typed(calls, b.state) == Typed(rest, s1);
      if Stored(c.plan, c.v, env).Ok? {
        var w := Stored(c.plan, c.v, env).value;
        var b1 := Builder(s1, b.values[i := Some(w)]);
        RunChain(fam, fs, honourHidden, rest, b1, env);
        assert RunSetters(calls, b, env) == RunSetters(rest, b1, env);
        if AllAccepted(rest, env) {
          assert AllAccepted(calls, env) by {
            forall j | 0 <= j < |calls| ensures Stored(calls[j].plan, calls[j].v, env).Ok? {
              if j > 0 {
                assert calls[j] == rest[j - 1];
              }
            }
          }
          var va := ValuesAfter(b.values, calls, env);
          var va1 := ValuesAfter(b1.values, rest, env);
          forall k | 0 <= k < |fs| ensures va[k] == va1[k] {
            CalledStep(calls, k);
            if k == i {
              ValueForFirst(calls, env);
              assert !Called(rest, k) by {
                forall j | 0 <= j < |rest| ensures rest[j].plan.index != k {
                  assert calls[j + 1] == rest[j];
                }
              }
            } else {
              ValueForStep(calls, k, env);
            }
          }
          assert va == va1;
        } else {
          var j :| 0 <= j < |rest| && !Stored(rest[j].plan, rest[j].v, env).Ok?;
          assert calls[j + 1] == rest[j];
        }
      } else {
        assert !AllAccepted(calls, env) by {
          assert !Stored(calls[0].plan, calls[0].v, env).Ok?;
        }
      }
    }
  }

  /** The `build` header of a generator whose first `r` fields are the
      required ones. */
  function BuildHeaderOf(fam: Family, fs: seq<SlotField>, r: nat): Header
    requires r <= |fs|
  {
    BuildHeader(fam, Map(fs[..r], (f: SlotField) => f.ty), |fs| - r)
  }

  /** A whole session: `new()`, a chain of setter calls, then `build`. The
      chain type-checks exactly when it sets distinct fields. `build` can
      then be called exactly when every required field was set. When every
      setter accepts its argument, the chain returns a builder and `build`
      never panics. It returns the value given to each field that was set
      and the evaluated default of each optional field that was not. */
  lemma Session(fam: Family, fs: seq<SlotField>, honourHidden: bool, r: nat, defaults: seq<string>, calls: seq<Invocation>, env: Env)
    requires r + |defaults| == |fs|
    requires FromPlans(fam, fs, honourHidden, calls)
    ensures Typed(calls, NewBuilder(r, defaults, env).state).Some? <==> Distinct(calls)
    ensures Distinct(calls) ==>
      (Applies(BuildHeaderOf(fam, fs, r), Typed(calls, NewBuilder(r, defaults, env).state).value) <==>
       forall k :: 0 <= k < r ==> Called(calls, k))
    ensures Distinct(calls) ==> RunSetters(calls, NewBuilder(r, defaults, env), env).Some?
    ensures Distinct(calls) ==>
      (RunSetters(calls, NewBuilder(r, defaults, env), env).value.Returned? <==> AllAccepted(calls, env))
    ensures Distinct(calls) && AllAccepted(calls, env) && (forall k :: 0 <= k < r ==> Called(calls, k)) ==>
      var values := RunSetters(calls, NewBuilder(r, defaults, env), env).value.b.values;
      && Build(values).Done?
      && |Build(values).value| == |fs|
      && forall k :: 0 <= k < |fs| ==>
        Some(Build(values).value[k]) == if Called(calls, k) then ValueFor(calls, k, env) else Some(env.eval(defaults[k - r]))
  {
    SessionTyping(fam, fs, honourHidden, r, defaults, calls, env);
    if Distinct(calls) {
      RunChain(fam, fs, honourHidden, calls, NewBuilder(r, defaults, env), env);
      if AllAccepted(calls, env) && forall k :: 0 <= k < r ==> Called(calls, k) {
        SessionBuild(fam, fs, honourHidden, r, defaults, calls, env);
      }
    }
  }

  /** The typing half of `Session`. */
  lemma SessionTyping(fam: Family, fs: seq<SlotField>, honourHidden: bool, r: nat, defaults: seq<string>, calls: seq<Invocation>, env: Env)
    requires r + |defaults| == |fs|
    requires FromPlans(fam, fs, honourHidden, calls)
    ensures Typed(calls, NewBuilder(r, defaults, env).state).Some? <==> Distinct(calls)
    ensures Distinct(calls) ==>
      (Applies(BuildHeaderOf(fam, fs, r), Typed(calls, NewBuilder(r, defaults, env).state).value) <==>
       forall k :: 0 <= k < r ==> Called(calls, k))
  {
    var b := NewBuilder(r, defaults, env);
    TypedChain(fam, fs, honourHidden, calls, b.state);
    if Distinct(calls) {
      var s := Typed(calls, b.state).value;
      var tys := Map(fs[..r], (f: SlotField) => f.ty);
      BuildApplies(fam, tys, |fs| - r, s);
      forall k | 0 <= k < r ensures s.slots[k] == Ty(tys[k]) <==> Called(calls, k) {
      }
    }
  }

  /** The `build` half of `Session`: every slot has a value, the called
      ones from their setters and the others from their defaults. */
  lemma SessionBuild(fam: Family, fs: seq<SlotField>, honourHidden: bool, r: nat, defaults: seq<string>, calls: seq<Invocation>, env: Env)
    requires r + |defaults| == |fs|
    requires FromPlans(fam, fs, honourHidden, calls)
    requires Distinct(calls) && AllAccepted(calls, env) && (forall k :: 0 <= k < r ==> Called(calls, k))
    ensures RunSetters(calls, NewBuilder(r, defaults, env), env).Some?
    ensures RunSetters(calls, NewBuilder(r, defaults, env), env).value.Returned?
    ensures var values := RunSetters(calls, NewBuilder(r, defaults, env), env).value.b.values;
      && Build(values).Done?
      && |Build(values).value| == |fs|
      && forall k :: 0 <= k < |fs| ==>
        Some(Build(values).value[k]) == if Called(calls, k) then ValueFor(calls, k, env) else Some(env.eval(defaults[k - r]))
  {
    var b := NewBuilder(r, defaults, env);
    TypedChain(fam, fs, honourHidden, calls, b.state);
    RunChain(fam, fs, honourHidden, calls, b, env);
    var values := RunSetters(calls, b, env).value.b.values;
    assert values == ValuesAfter(b.values, calls, env);
    forall k | 0 <= k < |fs| ensures values[k].Some? {
      if Called(calls, k) {
        var j :| 0 <= j < |calls| && calls[j].plan.index == k;
        ValueForAccepted(calls, j, env);
      }
    }
    BuildOutcome(values);
  }

  /** With every setter accepting, a called slot gets a value. */
  lemma {:induction false} ValueForAccepted(calls: seq<Invocation>, j: nat, env: Env)
    requires j < |calls| && AllAccepted(calls, env)
    ensures ValueFor(calls, calls[j].plan.index, env).Some?
  {
    if calls[0].plan.index != calls[j].plan.index {
      assert calls[1..][j - 1] == calls[j];
      ValueForAccepted(calls[1..], j - 1, env);
    }
  }
}
