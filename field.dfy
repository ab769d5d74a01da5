/** A field of the derived struct in the current generator
    (builder-pattern-macro/src/field.rs): ordering and equality by
    identifier, its doc attributes, the type text used in generated docs, and
    the `<T_, ..., extra,>` parameter list of a setter that rebinds inferred
    type parameters. */
module Fields {
  import opened Wrappers
  import opened Seqs
  import opened Idents
  import opened Attributes

  /** `Field { vis, ident, ty, attrs }`; the visibility and the type are
      their token text. */
  datatype Field = Field(vis: string, ident: string, ty: string, attrs: FieldAttributes)

  /** `Ord::cmp`: by identifier only. */
  function Cmp(a: Field, b: Field): (r: Ordering)
    ensures r == Equal <==> a.ident == b.ident
  {
    Compare(a.ident, b.ident)
  }

  /** `PartialOrd::partial_cmp`. */
  function PartialCmp(a: Field, b: Field): (r: Option<Ordering>)
    ensures r.Some? && r.value == Cmp(a, b)
  {
    Some(Compare(a.ident, b.ident))
  }

  /** `PartialEq::eq`. */
  function Eq(a: Field, b: Field): (r: bool)
    ensures r <==> Cmp(a, b) == Equal
  {
    a.ident == b.ident
  }

  /** Comparing fields ignores their visibility, type and attributes, and is
      antisymmetric: swapping the fields reverses the order. */
  lemma CmpByIdentOnly(a: Field, b: Field, a': Field, b': Field)
    requires a.ident == a'.ident && b.ident == b'.ident
    ensures Cmp(a, b) == Cmp(a', b') && Eq(a, b) == Eq(a', b')
    ensures Cmp(b, a) == Reverse(Cmp(a, b))
  {
    CompareAntisymmetric(a.ident, b.ident);
  }

  /** `documents`: the stored attributes whose path is `doc`, in order. */
  function Documents(f: Field): (r: seq<Attribute>)
    ensures forall d :: d in r ==> d in f.attrs.documents && IsDoc(d)
  {
    Filter(f.attrs.documents, IsDoc)
  }

  /** For a field whose attributes were classified from `attrs`, the documents
      are every `doc` attribute of `attrs` once one is present, and none
      otherwise; each `doc` attribute is kept exactly as often as it occurs. */
  lemma DocumentsOfClassified(f: Field, attrs: seq<Attribute>)
    requires Classify(attrs) == Ok(f.attrs)
    ensures Documents(f) == if Has(attrs, |attrs|, KDoc) then Filter(attrs, IsDoc) else []
    ensures Has(attrs, |attrs|, KDoc) ==> forall d :: IsDoc(d) ==> multiset(Documents(f))[d] == multiset(attrs)[d]
  {
    ClassifiedIsFold(attrs);
    FoldDocuments(attrs, |attrs|);
    if Has(attrs, |attrs|, KDoc) {
      var docs := Filter(attrs, IsDoc);
      assert f.attrs.documents == docs;
      FilterIdempotent(attrs, IsDoc);
      assert Documents(f) == docs;
      forall d | IsDoc(d) ensures multiset(Documents(f))[d] == multiset(attrs)[d] {
        FilterCount(attrs, IsDoc, d);
      }
    } else {
      assert f.attrs.documents == [];
    }
  }

  /** `type_documents`: `Into<T>` for an `into` field, else `T`. */
  function TypeDocuments(f: Field): (r: string)
    ensures f.attrs.useInto ==> |r| == |f.ty| + 6 && r[..5] == "Into<" && r[5..|r| - 1] == f.ty && r[|r| - 1] == '>'
    ensures !f.attrs.useInto ==> r == f.ty
  {
    if f.attrs.useInto then "Into<" + f.ty + ">" else f.ty
  }

  /** Reading the type back out of the documented text. */
  function DocumentedType(text: string, useInto: bool): Option<string>
  {
    if !useInto then Some(text)
    else if |text| >= 6 && text[..5] == "Into<" && text[|text| - 1] == '>' then Some(text[5..|text| - 1])
    else None
  }

  /** The documented text determines the field type: `DocumentedType` undoes
      `TypeDocuments`, so two fields with the same `into` flag and the same
      text have the same type. */
  lemma TypeDocumentsRoundTrip(f: Field)
    ensures DocumentedType(TypeDocuments(f), f.attrs.useInto) == Some(f.ty)
  {
  }

  /** The renamed identifiers of the `infer` list. */
  function Underscored(infer: seq<string>): (r: seq<string>)
    ensures |r| == |infer|
    ensures forall k :: 0 <= k < |infer| ==> r[k] == AddUnderscore(infer[k])
  {
    seq(|infer|, k requires 0 <= k < |infer| => AddUnderscore(infer[k]))
  }

  /** The parameter list `tokenize_replacement_params` emits. */
  function ReplacementParams(infer: seq<string>, additional: seq<Tokens>): Tokens
  {
    if infer == [] && additional == [] then []
    else ["<"] + Terminated(Singles(Underscored(infer))) + Terminated(additional) + [">"]
  }

  /** The list is empty exactly when there is nothing to list; otherwise it is
      `<`, each inferred identifier with `_` appended and a comma, each extra
      argument and a comma, then `>`. */
  lemma {:induction false} ReplacementParamsShape(infer: seq<string>, additional: seq<Tokens>)
    ensures ReplacementParams(infer, additional) == [] <==> infer == [] && additional == []
    ensures ReplacementParams(infer, additional) != [] ==>
      var r := ReplacementParams(infer, additional);
      && |r| == 2 * |infer| + |Terminated(additional)| + 2
      && r[0] == "<" && r[|r| - 1] == ">"
      && (forall k :: 0 <= k < |infer| ==> r[1 + 2 * k] == AddUnderscore(infer[k]) && r[2 + 2 * k] == ",")
      && r[1 + 2 * |infer|..|r| - 1] == Terminated(additional)
  {
    if !(infer == [] && additional == []) {
      var r := ReplacementParams(infer, additional);
      var u := Terminated(Singles(Underscored(infer)));
      if infer != [] {
        TerminatedSingles(Singles(Underscored(infer)), 0);
      } else {
        TerminatedEmpty(Singles(Underscored(infer)));
      }
      assert |u| == 2 * |infer|;
      forall k | 0 <= k < |infer| ensures r[1 + 2 * k] == AddUnderscore(infer[k]) && r[2 + 2 * k] == "," {
        TerminatedSingles(Singles(Underscored(infer)), k);
        assert r[1 + 2 * k] == u[2 * k];
        assert r[2 + 2 * k] == u[2 * k + 1];
      }
      assert r[1 + 2 * |infer|..|r| - 1] == Terminated(additional);
    }
  }

  /** `tokenize_replacement_params`: appends to a fresh stream step by step. */
  method TokenizeReplacementParams(f: Field, additional: seq<Tokens>) returns (stream: Tokens)
    ensures stream == ReplacementParams(f.attrs.infer, additional)
  {
    stream := [];
    var infer := f.attrs.infer;
    if infer == [] && additional == [] {
      return;
    }
    stream := stream + ["<"];
    var i := 0;
    while i < |infer|
      invariant 0 <= i <= |infer|
      invariant stream == ["<"] + Terminated(Singles(Underscored(infer[..i])))
    {
      TerminatedAppend(Singles(Underscored(infer[..i])), [[AddUnderscore(infer[i])]]);
      assert Singles(Underscored(infer[..i + 1])) == Singles(Underscored(infer[..i])) + [[AddUnderscore(infer[i])]];
      stream := stream + [AddUnderscore(infer[i]), ","];
      i := i + 1;
    }
    assert infer[..i] == infer;
    var prefix := stream;
    var j := 0;
    while j < |additional|
      invariant 0 <= j <= |additional|
      invariant stream == prefix + Terminated(additional[..j])
    {
      TerminatedAppend(additional[..j], [additional[j]]);
      assert additional[..j + 1] == additional[..j] + [additional[j]];
      stream := stream + additional[j] + [","];
      j := j + 1;
    }
    assert additional[..j] == additional;
    stream := stream + [">"];
  }
}
