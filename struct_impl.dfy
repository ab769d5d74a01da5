/** The `new()` constructor of the current generator
    (builder-pattern-macro/src/struct_impl.rs): the builder type it returns
    (every slot and both markers `()`), the value each builder field starts
    with, and the impl header that substitutes defaulted type parameters. */
module StructImpls {
  import opened Wrappers
  import opened Seqs
  import opened Attributes
  import opened Fields
  import opened StructInputs
  import opened TypeState
  import opened Setter
  import Refl

  /** `empty_generics`: one `()` per field. */
  function EmptyGenerics(si: StructInput): (r: seq<TypeArg>)
    ensures |r| == NumFields(si)
    ensures forall k :: 0 <= k < |r| ==> r[k] == Unit
  {
    seq(NumFields(si), _ => Unit)
  }

  /** The type `new()` returns: no field set, no async setter used, no lazy
      validator. */
  function NewState(si: StructInput): (s: State)
    ensures |s.slots| == NumFields(si) && |s.markers| == 2
    ensures forall k :: 0 <= k < |s.slots| ==> s.slots[k] == Unit
    ensures s.markers == [Unit, Unit]
  {
    State(EmptyGenerics(si), [Unit, Unit])
  }

  /** The value an optional field starts with in `new()`. A late-bound
      default leaves the field empty; an early-bound value default is stored
      with the witness `refl()`; a producer default is stored as a lazy
      setter. A default of any other kind, and an optional field without one,
      stop the generator. */
  function OptionalInit(f: Field, env: Env): (o: Outcome<Option<ValueRepr>>)
    ensures !o.Failed?
    ensures o.Done? <==> f.attrs.default.Some? && (f.attrs.lateBoundDefault || f.attrs.default.value.kind == {VALUE} || f.attrs.default.value.kind == {LAZY})
    ensures o.Done? ==> (o.value.None? <==> f.attrs.lateBoundDefault)
    ensures o.Done? && o.value.Some? ==> o.value.value.Default? || o.value.value.Lazy?
    ensures o.Done? && o.value.Some? && o.value.value.Default? ==> o.value.value.id == Refl.Refl(f.ty)
  {
    match f.attrs.default
    case None => Panicked("not implemented")
    case Some(rule) =>
      if f.attrs.lateBoundDefault then Done(None)
      else if rule.kind == {VALUE} then Done(Some(ValueRepr.Default(env.eval(rule.expr), Refl.Refl(f.ty))))
      else if rule.kind == {LAZY} then Done(Some(Lazy(Producer(env.call(rule.expr)))))
      else Panicked("not implemented")
  }

  /** The values the builder fields start with, in slot order: required
      fields empty, then the optional ones. */
  function InitOutcomes(si: StructInput, env: Env): (r: seq<Outcome<Option<ValueRepr>>>)
    ensures |r| == NumFields(si)
  {
    seq(|si.requiredFields|, _ => Done(None)) + Map(si.optionalFields, (f: Field) => OptionalInit(f, env))
  }

  /** `builder_init_args`, with the default expressions evaluated as `new()`
      evaluates them. */
  function BuilderInitArgs(si: StructInput, env: Env): (r: Outcome<seq<Option<ValueRepr>>>)
    ensures !r.Failed?
    ensures r.Done? <==> forall k :: 0 <= k < |si.optionalFields| ==> OptionalInit(si.optionalFields[k], env).Done?
    ensures r.Done? ==> |r.value| == NumFields(si)
  {
    InitOutcomesDone(si, env);
    Collect(InitOutcomes(si, env))
  }

  /** The required fields' starting values are always there; an optional
      field's is there exactly when its default can be written, and none of
      them is an error. */
  lemma InitOutcomesDone(si: StructInput, env: Env)
    ensures (forall k :: 0 <= k < |InitOutcomes(si, env)| ==> InitOutcomes(si, env)[k].Done?) <==>
      forall k :: 0 <= k < |si.optionalFields| ==> OptionalInit(si.optionalFields[k], env).Done?
    ensures forall k :: 0 <= k < |InitOutcomes(si, env)| ==> !InitOutcomes(si, env)[k].Failed?
  {
    var outs := InitOutcomes(si, env);
    var r := |si.requiredFields|;
    forall k | 0 <= k < |outs|
      ensures !outs[k].Failed?
      ensures k < r ==> outs[k].Done?
      ensures r <= k ==> outs[k] == OptionalInit(si.optionalFields[k - r], env)
    {
      if k < r {
        assert outs[k] == Done(None);
      }
    }
    forall k | 0 <= k < |si.optionalFields| ensures outs[r + k] == OptionalInit(si.optionalFields[k], env) {
    }
  }

  /** The starting values: one per field; required fields and late-bound
      optional fields are empty, an early-bound value default holds the
      evaluated expression at the field's own type, a producer default holds
      the producer. */
  lemma BuilderInitArgsShape(si: StructInput, env: Env)
    requires BuilderInitArgs(si, env).Done?
    ensures var init := BuilderInitArgs(si, env).value;
      && |init| == NumFields(si)
      && (forall k :: 0 <= k < |si.requiredFields| ==> init[k] == None)
      && (forall k :: 0 <= k < |si.optionalFields| ==>
            var f := si.optionalFields[k];
            && f.attrs.default.Some?
            && (f.attrs.lateBoundDefault ==> init[|si.requiredFields| + k] == None)
            && (!f.attrs.lateBoundDefault && f.attrs.default.value.kind == {VALUE} ==>
                  init[|si.requiredFields| + k] == Some(ValueRepr.Default(env.eval(f.attrs.default.value.expr), Refl.Refl(f.ty))))
            && (!f.attrs.lateBoundDefault && f.attrs.default.value.kind == {LAZY} ==>
                  init[|si.requiredFields| + k] == Some(Lazy(Producer(env.call(f.attrs.default.value.expr))))))
  {
    var outs := InitOutcomes(si, env);
    forall k | 0 <= k < |si.optionalFields| ensures si.optionalFields[k].attrs.default.Some? {
      assert outs[|si.requiredFields| + k].Done?;
    }
  }

  /** `new()` writes a variant that setter.rs does not declare only into an
      optional field with an early-bound value default, and that variant is
      `Setter::Default`; every other starting value is empty or a declared
      variant. */
  lemma InitUndeclared(si: StructInput, env: Env, k: nat)
    requires BuilderInitArgs(si, env).Done?
    requires k < NumFields(si)
    ensures var x := BuilderInitArgs(si, env).value[k];
      x.Some? && !Declared(x.value, true) ==>
        && |si.requiredFields| <= k
        && x.value.Default?
        && !AllFields(si)[k].attrs.lateBoundDefault
        && AllFields(si)[k].attrs.default.Some? && AllFields(si)[k].attrs.default.value.kind == {VALUE}
  {
    var outs := InitOutcomes(si, env);
    var r := |si.requiredFields|;
    if k >= r {
      var f := si.optionalFields[k - r];
      assert AllFields(si)[k] == f;
      assert outs[k] == OptionalInit(f, env);
    } else {
      assert outs[k] == Done(None);
    }
  }

  /** The generator never stops on the optional fields of a parsed struct:
      each has a default, and a classified default is a value or a
      producer. */
  lemma ParsedInitArgsDone(input: DeriveInput, env: Env)
    requires ParseSpec(input).Ok?
    ensures BuilderInitArgs(ParseSpec(input).value, env).Done?
  {
    var si := ParseSpec(input).value;
    ParseSorted(input);
    ParsedFieldsClassified(input);
    var outs := InitOutcomes(si, env);
    forall k | 0 <= k < |outs| ensures outs[k].Done? {
      if k >= |si.requiredFields| {
        var f := si.optionalFields[k - |si.requiredFields|];
        assert f in si.optionalFields;
        assert f in AllFields(si);
        ClassifiedFacts(f.attrs);
      }
    }
  }

  /** The intended start of an optional field: a late-bound default holds
      its witness, to be resolved when the builder is built, instead of
      nothing. */
  function CorrectedOptionalInit(f: Field, env: Env): Outcome<Option<ValueRepr>>
  {
    match f.attrs.default
    case None => Panicked("not implemented")
    case Some(rule) =>
      if f.attrs.lateBoundDefault then Done(Some(LateBoundDefault(Refl.Refl(f.ty))))
      else OptionalInit(f, env)
  }

  function CorrectedInitOutcomes(si: StructInput, env: Env): (r: seq<Outcome<Option<ValueRepr>>>)
    ensures |r| == NumFields(si)
  {
    seq(|si.requiredFields|, _ => Done(None)) + Map(si.optionalFields, (f: Field) => CorrectedOptionalInit(f, env))
  }

  /** `builder_init_args` with the late-bound start corrected. */
  function CorrectedInitArgs(si: StructInput, env: Env): Outcome<seq<Option<ValueRepr>>>
  {
    Collect(CorrectedInitOutcomes(si, env))
  }

  /** The correction changes only late-bound optional fields: every optional
      field then starts with a value, and only required fields start
      empty. */
  lemma CorrectedInitArgsShape(si: StructInput, env: Env)
    requires CorrectedInitArgs(si, env).Done?
    ensures var init := CorrectedInitArgs(si, env).value;
      && |init| == NumFields(si)
      && (forall k :: 0 <= k < NumFields(si) ==> (init[k] == None <==> k < |si.requiredFields|))
      && (forall k :: 0 <= k < |si.optionalFields| && si.optionalFields[k].attrs.lateBoundDefault ==>
            init[|si.requiredFields| + k] == Some(LateBoundDefault(Refl.Refl(si.optionalFields[k].ty))))
      && (forall k :: 0 <= k < |si.optionalFields| && !si.optionalFields[k].attrs.lateBoundDefault ==>
            BuilderInitArgs(si, env).Done? ==> init[|si.requiredFields| + k] == BuilderInitArgs(si, env).value[|si.requiredFields| + k])
  {
    var outs := CorrectedInitOutcomes(si, env);
    var init := CorrectedInitArgs(si, env).value;
    var r := |si.requiredFields|;
    forall k | 0 <= k < r ensures init[k] == None {
      assert outs[k] == Done(None);
    }
    forall k | 0 <= k < |si.optionalFields|
      ensures init[r + k] != None
      ensures si.optionalFields[k].attrs.lateBoundDefault ==>
        init[r + k] == Some(LateBoundDefault(Refl.Refl(si.optionalFields[k].ty)))
      ensures !si.optionalFields[k].attrs.lateBoundDefault && BuilderInitArgs(si, env).Done? ==>
        init[r + k] == BuilderInitArgs(si, env).value[r + k]
    {
      CorrectedOptionalStart(si, env, k);
    }
  }

  /** One optional field of `CorrectedInitArgsShape`. */
  lemma CorrectedOptionalStart(si: StructInput, env: Env, k: nat)
    requires CorrectedInitArgs(si, env).Done? && k < |si.optionalFields|
    ensures CorrectedInitArgs(si, env).value[|si.requiredFields| + k] != None
    ensures si.optionalFields[k].attrs.lateBoundDefault ==>
      CorrectedInitArgs(si, env).value[|si.requiredFields| + k] == Some(LateBoundDefault(Refl.Refl(si.optionalFields[k].ty)))
    ensures !si.optionalFields[k].attrs.lateBoundDefault && BuilderInitArgs(si, env).Done? ==>
      CorrectedInitArgs(si, env).value[|si.requiredFields| + k] == BuilderInitArgs(si, env).value[|si.requiredFields| + k]
  {
    var r := |si.requiredFields|;
    var f := si.optionalFields[k];
    var outs := CorrectedInitOutcomes(si, env);
    assert outs[r + k] == CorrectedOptionalInit(f, env);
    assert outs[r + k].Done?;
    if BuilderInitArgs(si, env).Done? {
      assert InitOutcomes(si, env)[r + k] == OptionalInit(f, env);
    }
  }

  /** The header of the `impl` holding `new()`. */
  datatype NewImplDecl = NewImplDecl(implParams: Tokens, selfArgs: Tokens, whereTokens: Tokens, result: State)

  /** `quote!{ #where_clause }`: nothing when there is no clause or its
      predicate list is empty; otherwise `where` and the predicates with the
      commas between them, and a final `,` exactly when the user wrote one. */
  function WhereClauseTokens(g: Generics): (t: Tokens)
    ensures t == [] <==> g.whereClause.None? || g.whereClause.value.predicates == []
    ensures t != [] ==> t[0] == "where"
    ensures t != [] && g.whereClause.value.trailingComma ==>
      t == ["where"] + Terminated(g.whereClause.value.predicates)
    ensures t != [] && !g.whereClause.value.trailingComma ==>
      t + [","] == ["where"] + Terminated(g.whereClause.value.predicates)
  {
    if g.whereClause.None? || g.whereClause.value.predicates == [] then []
    else
      var w := g.whereClause.value;
      SeparatedTerminated(w.predicates);
      ["where"] + Separated(w.predicates) + (if w.trailingComma then [","] else [])
  }

  /** `StructImpl::to_tokens`: `new()` is declared on the struct with its
      defaulted type parameters removed from the impl parameters and replaced
      by their defaults (through `replace`, which stands for
      `replace_type_params_in` with `with_param_default`) in the struct
      type's type arguments and the `where` clause; the struct's lifetimes
      come first in the struct type, each followed by a comma. `new()`
      returns the builder with every slot and both markers `()`. */
  function NewImpl(si: StructInput, replace: (Tokens, seq<string>) -> Tokens): (d: NewImplDecl)
    ensures |d.result.slots| == NumFields(si) && d.result.markers == [Unit, Unit]
    ensures forall k :: 0 <= k < NumFields(si) ==> d.result.slots[k] == Unit
    ensures |d.selfArgs| >= 2 * |Lifetimes(si.generics)|
    ensures forall i :: 0 <= i < |Lifetimes(si.generics)| ==>
      d.selfArgs[2 * i] == Lifetimes(si.generics)[i] && d.selfArgs[2 * i + 1] == ","
  {
    var defaulted := DefaultedGenerics(si.generics);
    var lifetimes := Lifetimes(si.generics);
    var written := Terminated(Singles(lifetimes));
    assert |written| == 2 * |lifetimes| && forall i :: 0 <= i < |lifetimes| ==> written[2 * i] == lifetimes[i] && written[2 * i + 1] == "," by {
      if lifetimes != [] {
        TerminatedSingles(Singles(lifetimes), 0);
      }
      forall i | 0 <= i < |lifetimes| ensures written[2 * i] == lifetimes[i] && written[2 * i + 1] == "," {
        TerminatedSingles(Singles(lifetimes), i);
      }
    }
    NewImplDecl(
      ImplTokens(si.generics, defaulted),
      written + replace(TypesTokens(si.generics, [], false), defaulted),
      replace(WhereClauseTokens(si.generics), defaulted),
      NewState(si))
  }

  /** No type parameter with a default is a parameter of the `new()` impl:
      the type and const parameters written there are exactly those without a
      default, in order. */
  lemma NewImplOmitsDefaulted(si: StructInput)
    ensures forall p :: p in Filter(si.generics.params, (p: GenericParam) => !p.LifetimeParam? && Kept(p, DefaultedGenerics(si.generics))) ==>
      !(p.TypeParam? && p.default.Some?)
    ensures forall k ::
      (0 <= k < |si.generics.params| && si.generics.params[k].TypeParam? && si.generics.params[k].default.None? &&
       si.generics.params[k].ident !in DefaultedGenerics(si.generics)) ==>
      si.generics.params[k] in Filter(si.generics.params, (p: GenericParam) => !p.LifetimeParam? && Kept(p, DefaultedGenerics(si.generics)))
  {
    var defaulted := DefaultedGenerics(si.generics);
    var params := si.generics.params;
    forall p | p in Filter(params, (p: GenericParam) => !p.LifetimeParam? && Kept(p, defaulted)) ensures !(p.TypeParam? && p.default.Some?) {
      assert p in params;
    }
    forall k | 0 <= k < |params| && params[k].TypeParam? && params[k].default.None? && params[k].ident !in defaulted
      ensures params[k] in Filter(params, (p: GenericParam) => !p.LifetimeParam? && Kept(p, defaulted))
    {
      FilterMember(params, (p: GenericParam) => !p.LifetimeParam? && Kept(p, defaulted), k);
    }
  }
}
