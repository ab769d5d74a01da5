/** The type-equality witness `refl::Id<S, T>` of builder-pattern/src/refl.rs.
    Types are named by their text. `Id` has no public constructor; the only
    values are `Id::<T, T>::REFL` and `refl::<T>()`, so every witness relates a
    type to itself, and `cast` re-tags a value without changing it. */
module Refl {

  /** `Id<S, T>` names a source and a target type. */
  datatype Id = Id(source: string, target: string)

  /** The witnesses a program can hold: only `Id<T, T>` is inhabited. */
  type Witness = id: Id | id.source == id.target witness Id("()", "()")

  /** A value of a named type. */
  datatype Typed = Typed(ty: string, value: string)

  /** `Id::<T, T>::REFL` and `refl::<T>()`. */
  function Refl(t: string): (w: Witness)
    ensures w.source == t && w.target == t
  {
    Id(t, t)
  }

  /** No witness relates two different types: naming
      `Id::<String, Vec<i32>>::REFL` cannot type-check. */
  lemma NoWitnessBetweenDistinct(s: string, t: string)
    requires s != t
    ensures forall w: Witness :: !(w.source == s && w.target == t)
  {
  }

  /** `Id::cast`: takes a value of the source type and gives it back at the
      target type, unchanged. */
  function Cast(id: Witness, x: Typed): (r: Typed)
    requires x.ty == id.source
    ensures r.ty == id.target
    ensures r == x
  {
    Typed(id.target, x.value)
  }

  /** `Id::sym`: type equality is symmetric. */
  function Sym(id: Witness): (r: Witness)
    ensures r.source == id.target && r.target == id.source
  {
    Id(id.target, id.source)
  }

  /** Casting back through `sym` undoes a cast. */
  lemma CastSymUndo(id: Witness, x: Typed)
    requires x.ty == id.source
    ensures Cast(Sym(id), Cast(id, x)) == x
  {
  }
}
