/** The type-level state of a generated builder and the impl blocks that
    act on it. A builder type is `XBuilder<'fn_lifetime, <struct params>,
    S1, ..., Sn, M1, M2>`: one slot per field, `()` while the field is unset
    and the field type once it is set, followed by marker parameters. An
    `impl<...> XBuilder<P1, ..., Pn, Q...>` header is a pattern over those
    arguments: a generic variable matches anything (the same variable the same
    thing), a concrete type only itself. A method of that impl can be called
    on a builder exactly when the header matches its type, and its return type
    is the pattern of the result with the variables bound by the match. The
    struct's own lifetimes and type parameters appear identically on both
    sides of every header and are not part of this state. */
module TypeState {
  import opened Wrappers

  /** The generic variables the generators declare. */
  datatype GenName =
    | TyBuilderPattern(n: nat)   // slot variable of the current generator
    | U(n: nat)                  // slot variable of src/structure.rs
    | AsyncFieldMarker
    | ValidatorOption

  /** A concrete type argument. */
  datatype TypeArg =
    | Unit                       // `()`
    | Ty(text: string)           // a field type
    | AsyncBuilderMarker         // `::builder_pattern::setter::AsyncBuilderMarker`
    | HavingLazyValidator        // `::builder_pattern::setter::HavingLazyValidator`

  /** A position of an impl header or a return type. */
  datatype Pat = Var(name: GenName) | Lit(arg: TypeArg)

  /** The type of a builder value: its slots and its markers. */
  datatype State = State(slots: seq<TypeArg>, markers: seq<TypeArg>)

  /** The builder type named by an impl header or a return type. A header
      may list fewer markers than the type has; the positions it does not
      list are not constrained. */
  datatype Header = Header(slots: seq<Pat>, markers: seq<Pat>)

  /** Positionwise matching with consistent binding of repeated variables. */
  predicate Matches(pats: seq<Pat>, args: seq<TypeArg>)
  {
    && |pats| == |args|
    && (forall i :: 0 <= i < |pats| && pats[i].Lit? ==> args[i] == pats[i].arg)
    && (forall i, j :: 0 <= i < |pats| && 0 <= j < |pats| && pats[i].Var? && pats[i] == pats[j] ==> args[i] == args[j])
  }

  /** Every variable occurs at most once. */
  predicate DistinctVars(pats: seq<Pat>)
  {
    forall i, j :: 0 <= i < j < |pats| && pats[i].Var? ==> pats[i] != pats[j]
  }

  /** With distinct variables, only the concrete positions constrain a
      match. */
  lemma MatchesDistinct(pats: seq<Pat>, args: seq<TypeArg>)
    requires DistinctVars(pats)
    ensures Matches(pats, args) <==>
      |pats| == |args| && forall i :: 0 <= i < |pats| && pats[i].Lit? ==> args[i] == pats[i].arg
  {
    if |pats| == |args| && forall i :: 0 <= i < |pats| && pats[i].Lit? ==> args[i] == pats[i].arg {
      forall i, j | 0 <= i < |pats| && 0 <= j < |pats| && pats[i].Var? && pats[i] == pats[j] ensures i == j {
      }
    }
  }

  /** The first position of variable `n`. */
  function Find(pats: seq<Pat>, n: GenName): (r: Option<nat>)
    ensures r.Some? ==> r.value < |pats| && pats[r.value] == Var(n)
    ensures r.Some? ==> forall k :: 0 <= k < r.value ==> pats[k] != Var(n)
    ensures r.None? <==> Var(n) !in pats
  {
    if pats == [] then None
    else if pats[0] == Var(n) then Some(0)
    else match Find(pats[1..], n)
      case None => None
      case Some(k) => Some(k + 1)
  }

  /** The argument a pattern position stands for under a match of `pats`
      against `args`; `None` for a variable the header does not bind. */
  function Bind(p: Pat, pats: seq<Pat>, args: seq<TypeArg>): Option<TypeArg>
    requires |pats| == |args|
  {
    match p
    case Lit(a) => Some(a)
    case Var(n) => (match Find(pats, n) case None => None case Some(k) => Some(args[k]))
  }

  /** Binding a variable gives the argument at any of its positions. */
  lemma BindVar(pats: seq<Pat>, args: seq<TypeArg>, k: nat)
    requires Matches(pats, args) && k < |pats| && pats[k].Var?
    ensures Bind(pats[k], pats, args) == Some(args[k])
  {
    var j := Find(pats, pats[k].name).value;
    assert pats[j] == pats[k];
  }

  /** The type a return pattern names after a match. */
  function Instantiate(template: seq<Pat>, pats: seq<Pat>, args: seq<TypeArg>): (r: Option<seq<TypeArg>>)
    requires |pats| == |args|
    ensures r.Some? <==> forall k :: 0 <= k < |template| ==> Bind(template[k], pats, args).Some?
    ensures r.Some? ==> |r.value| == |template|
    ensures r.Some? ==> forall k :: 0 <= k < |template| ==> r.value[k] == Bind(template[k], pats, args).value
  {
    if template == [] then Some([])
    else
      match Bind(template[0], pats, args)
      case None => None
      case Some(a) =>
        match Instantiate(template[1..], pats, args)
        case None =>
          assert exists k :: 1 <= k < |template| && Bind(template[k], pats, args).None? by {
            var k' :| 0 <= k' < |template[1..]| && Bind(template[1..][k'], pats, args).None?;
            assert template[1..][k'] == template[k' + 1];
          }
          None
        case Some(rest) =>
          assert forall k :: 1 <= k < |template| ==> template[k] == template[1..][k - 1];
          Some([a] + rest)
  }

  /** The header's positions and the arguments they are matched against. */
  function Flat(h: Header): seq<Pat>
  {
    h.slots + h.markers
  }

  function Args(h: Header, s: State): seq<TypeArg>
    requires |h.markers| <= |s.markers|
  {
    s.slots + s.markers[..|h.markers|]
  }

  /** A method of the impl with header `h` can be called on a builder of
      type `s`. */
  predicate Applies(h: Header, s: State)
  {
    |h.slots| == |s.slots| && |h.markers| <= |s.markers| && Matches(Flat(h), Args(h, s))
  }

  /** The type returned by a method of impl `h` whose return type is `ret`,
      called on a builder of type `s`; `None` when the method cannot be
      called. */
  function Apply(h: Header, ret: Header, s: State): (r: Option<State>)
    ensures r.Some? ==> Applies(h, s)
    ensures r.Some? ==> |r.value.slots| == |ret.slots| && |r.value.markers| == |ret.markers|
  {
    if !Applies(h, s) then None
    else
      match (Instantiate(ret.slots, Flat(h), Args(h, s)), Instantiate(ret.markers, Flat(h), Args(h, s)))
      case (Some(slots), Some(markers)) => Some(State(slots, markers))
      case _ => None
  }

  /** The variables a pattern uses. */
  function Vars(pats: seq<Pat>): (r: set<GenName>)
    ensures forall n :: n in r <==> Var(n) in pats
  {
    set p | p in pats && p.Var? :: p.name
  }

  /** A header whose variables cover those of the return type always yields
      a result when it matches: every variable the result mentions is
      bound. */
  lemma ApplyDefined(h: Header, ret: Header, s: State)
    requires Applies(h, s)
    requires Vars(ret.slots) + Vars(ret.markers) <= Vars(Flat(h))
    ensures Apply(h, ret, s).Some?
  {
    forall k | 0 <= k < |ret.slots| ensures Bind(ret.slots[k], Flat(h), Args(h, s)).Some? {
      if ret.slots[k].Var? {
        assert ret.slots[k].name in Vars(ret.slots);
      }
    }
    forall k | 0 <= k < |ret.markers| ensures Bind(ret.markers[k], Flat(h), Args(h, s)).Some? {
      if ret.markers[k].Var? {
        assert ret.markers[k].name in Vars(ret.markers);
      }
    }
  }
}
