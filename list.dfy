/** The type-level list of builder-pattern/src/list.rs: `Nil`, `Cons<T>` and
    the trait `Append`, whose associated type `Out` adds one `Cons` layer.
    A type term is either one of the two list constructors or some other type;
    `Append` is implemented only for terms that bottom out at `Nil`. */
module TypeList {
  import opened Wrappers

  datatype TypeTerm = Nil | Cons(inner: TypeTerm) | Other(name: string)

  /** The term implements `Append`: `Nil` does, and `Cons<T>` does when `T` does. */
  predicate IsList(t: TypeTerm)
  {
    match t
    case Nil => true
    case Cons(x) => IsList(x)
    case Other(_) => false
  }

  /** The number of `Cons` layers. */
  function Depth(t: TypeTerm): nat
  {
    match t
    case Nil => 0
    case Cons(x) => 1 + Depth(x)
    case Other(_) => 0
  }

  /** `<T as Append>::Out`, or `None` where no impl applies. */
  function Append(t: TypeTerm): (r: Option<TypeTerm>)
    ensures r.Some? <==> IsList(t)
    ensures r.Some? ==> r.value != Nil && r.value.Cons? && IsList(r.value)
    ensures r.Some? ==> Depth(r.value) == Depth(t) + 1
  {
    match t
    case Nil => Some(Cons(Nil))
    case Cons(x) =>
      (match Append(x)
       case Some(o) => Some(Cons(o))
       case None => None)
    case Other(_) => None
  }

  /** The list with `n` layers: `Cons<Cons<...Nil>>`. */
  function OfLength(n: nat): TypeTerm
  {
    if n == 0 then Nil else Cons(OfLength(n - 1))
  }

  /** Every list is `OfLength` of its depth, and appending to the list of
      length `n` gives the list of length `n + 1`. */
  lemma {:induction false} AppendOfLength(n: nat)
    ensures Append(OfLength(n)) == Some(OfLength(n + 1))
  {
    if n > 0 {
      AppendOfLength(n - 1);
    }
  }

  lemma {:induction false} ListIsOfLength(t: TypeTerm)
    requires IsList(t)
    ensures t == OfLength(Depth(t))
  {
    if t.Cons? {
      ListIsOfLength(t.inner);
    }
  }
}
