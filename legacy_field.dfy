/** A field of the earlier generator (src/field.rs): ordering and equality by
    identifier, and its doc attributes. */
module LegacyFields {
  import opened Wrappers
  import Seqs
  import opened Idents
  import Attributes
  import LegacyAttributes

  /** `Field { vis, ident, ty, attrs }`; the visibility and the type are
      their token text. */
  datatype Field = Field(vis: string, ident: string, ty: string, attrs: LegacyAttributes.FieldAttributes)

  /** `Ord::cmp`: by identifier only. */
  function Cmp(a: Field, b: Field): (r: Ordering)
    ensures r == Equal <==> a.ident == b.ident
  {
    Compare(a.ident, b.ident)
  }

  /** `PartialOrd::partial_cmp`. */
  function PartialCmp(a: Field, b: Field): (r: Option<Ordering>)
    ensures r.Some? && r.value == Cmp(a, b)
  {
    Some(Compare(a.ident, b.ident))
  }

  /** `PartialEq::eq`. */
  function Eq(a: Field, b: Field): (r: bool)
    ensures r <==> Cmp(a, b) == Equal
  {
    a.ident == b.ident
  }

  /** Comparing fields ignores their visibility, type and attributes, and
      swapping the fields reverses the order. */
  lemma CmpByIdentOnly(a: Field, b: Field, a': Field, b': Field)
    requires a.ident == a'.ident && b.ident == b'.ident
    ensures Cmp(a, b) == Cmp(a', b') && Eq(a, b) == Eq(a', b')
    ensures Cmp(b, a) == Reverse(Cmp(a, b))
  {
    CompareAntisymmetric(a.ident, b.ident);
  }

  /** `documents`: the stored attributes whose path is `doc`, in order. */
  function Documents(f: Field): (r: seq<Attributes.Attribute>)
    ensures forall d :: d in r ==> d in f.attrs.documents && Attributes.IsDoc(d)
  {
    Seqs.Filter(f.attrs.documents, Attributes.IsDoc)
  }

  /** For a field whose attributes were folded from `attrs`, the documents
      are every `doc` attribute of `attrs`, in order, once one is present, and
      none otherwise. */
  lemma DocumentsOfFolded(f: Field, attrs: seq<Attributes.Attribute>)
    requires LegacyAttributes.FoldPrefix(attrs, |attrs|) == Ok(f.attrs)
    ensures Documents(f) ==
      if LegacyAttributes.LastIndex(attrs, |attrs|, LegacyAttributes.KDoc).Some?
      then Seqs.Filter(attrs, Attributes.IsDoc) else []
  {
    LegacyAttributes.FoldFields(attrs, |attrs|);
    Seqs.FilterIdempotent(attrs, Attributes.IsDoc);
  }
}
