/** Field attributes of the earlier generator (src/attributes.rs): the
    `default`, `into`, `validator` and `doc` attributes of one field folded
    into a record. A failure of the generator (`unimplemented!`, `unwrap` on a
    failed parse) is an `Err` carrying its message. */
module LegacyAttributes {
  import opened Wrappers
  import Seqs
  import Attributes

  /** `FieldAttributes` of src/attributes.rs. The documents are the `doc`
      attributes themselves (the source keeps their token streams). `hidden`
      is read by src/builder/functions.rs but declared nowhere in this
      generation; the classifier never sets it. */
  datatype FieldAttributes = FieldAttributes(
    default: Option<string>,
    useInto: bool,
    validator: Option<string>,
    documents: seq<Attributes.Attribute>,
    hidden: bool)

  /** `FieldAttributes::default()`. */
  const DefaultAttributes := FieldAttributes(None, false, None, [], false)

  /** Which branch of the dispatch an attribute takes. */
  datatype Kind = KDefault | KInto | KValidator | KDoc | KOther

  function KindOf(a: Attributes.Attribute): Kind
  {
    if Attributes.IsIdent(a.path, "default") then KDefault
    else if Attributes.IsIdent(a.path, "into") then KInto
    else if Attributes.IsIdent(a.path, "validator") then KValidator
    else if Attributes.IsIdent(a.path, "doc") then KDoc
    else KOther
  }

  const DuplicatedDefault := "not implemented: Duplicated `default` attributes."

  /** One step of the `for_each`; `all` is the whole list, which the `doc`
      branch reads. */
  function Step(all: seq<Attributes.Attribute>, a: Attributes.Attribute, acc: FieldAttributes): Result<FieldAttributes>
  {
    match KindOf(a)
    case KDefault =>
      if acc.default.Some? then Err(DuplicatedDefault)
      else if a.expr.None? then Err(Attributes.MetaUnwrapPanic)
      else Ok(acc.(default := a.expr))
    case KInto => Ok(acc.(useInto := true))
    case KValidator =>
      if a.expr.None? then Err(Attributes.MetaUnwrapPanic) else Ok(acc.(validator := a.expr))
    case KDoc => Ok(acc.(documents := Seqs.Filter(all, Attributes.IsDoc)))
    case KOther => Ok(acc)
  }

  /** The record after the first `n` attributes, or the first failure. */
  function FoldPrefix(all: seq<Attributes.Attribute>, n: nat): Result<FieldAttributes>
    requires n <= |all|
  {
    if n == 0 then Ok(DefaultAttributes)
    else
      match FoldPrefix(all, n - 1)
      case Err(e) => Err(e)
      case Ok(acc) => Step(all, all[n - 1], acc)
  }

  /** `From<Vec<Attribute>> for FieldAttributes`: updates one record
      attribute by attribute, stopping at the first failure. */
  method From(attrs: seq<Attributes.Attribute>) returns (r: Result<FieldAttributes>)
    ensures r == FoldPrefix(attrs, |attrs|)
  {
    var attributes := DefaultAttributes;
    var i := 0;
    while i < |attrs|
      invariant 0 <= i <= |attrs|
      invariant FoldPrefix(attrs, i) == Ok(attributes)
    {
      var attr := attrs[i];
      match KindOf(attr) {
        case KDefault =>
          if attributes.default.Some? || attr.expr.None? {
            r := Err(if attributes.default.Some? then DuplicatedDefault else Attributes.MetaUnwrapPanic);
            FoldErrorPersists(attrs, i + 1, |attrs|);
            return;
          }
          attributes := attributes.(default := attr.expr);
        case KInto =>
          attributes := attributes.(useInto := true);
        case KValidator =>
          if attr.expr.None? {
            r := Err(Attributes.MetaUnwrapPanic);
            FoldErrorPersists(attrs, i + 1, |attrs|);
            return;
          }
          attributes := attributes.(validator := attr.expr);
        case KDoc =>
          var docs := Attributes.GetDocuments(attrs);
          attributes := attributes.(documents := docs);
        case KOther =>
      }
      i := i + 1;
    }
    r := Ok(attributes);
  }

  lemma {:induction false} FoldErrorPersists(all: seq<Attributes.Attribute>, i: nat, n: nat)
    requires i <= n <= |all|
    requires FoldPrefix(all, i).Err?
    ensures FoldPrefix(all, n) == FoldPrefix(all, i)
  {
    if n > i {
      FoldErrorPersists(all, i, n - 1);
    }
  }

  /** The index of the last attribute of kind `k` among the first `n`. */
  function LastIndex(all: seq<Attributes.Attribute>, n: nat, k: Kind): (r: Option<nat>)
    requires n <= |all|
    ensures r.Some? ==> r.value < n && KindOf(all[r.value]) == k
    ensures r.Some? ==> forall j :: r.value < j < n ==> KindOf(all[j]) != k
    ensures r.None? <==> forall j :: 0 <= j < n ==> KindOf(all[j]) != k
  {
    if n == 0 then None
    else if KindOf(all[n - 1]) == k then Some(n - 1)
    else LastIndex(all, n - 1, k)
  }

  /** The first `n` attributes hold at most one `default`, and every
      `default` and `validator` among them carries an expression. */
  predicate Accepted(all: seq<Attributes.Attribute>, n: nat)
    requires n <= |all|
  {
    && (forall j :: 0 <= j < n && KindOf(all[j]) in {KDefault, KValidator} ==> all[j].expr.Some?)
    && (forall i, j :: 0 <= i < j < n && KindOf(all[i]) == KDefault ==> KindOf(all[j]) != KDefault)
  }

  /** The fold succeeds exactly on accepted lists, and then a default is
      stored exactly when a `default` attribute occurs. */
  lemma {:induction false} FoldAccepted(all: seq<Attributes.Attribute>, n: nat)
    requires n <= |all|
    ensures FoldPrefix(all, n).Ok? <==> Accepted(all, n)
    ensures FoldPrefix(all, n).Ok? ==>
      (FoldPrefix(all, n).value.default.Some? <==> LastIndex(all, n, KDefault).Some?)
  {
    if n > 0 {
      FoldAccepted(all, n - 1);
      if FoldPrefix(all, n - 1).Ok? && KindOf(all[n - 1]) == KDefault && LastIndex(all, n - 1, KDefault).Some? {
        var i := LastIndex(all, n - 1, KDefault).value;
        assert KindOf(all[i]) == KDefault && KindOf(all[n - 1]) == KDefault;
      }
      if !Accepted(all, n - 1) {
        if exists j :: 0 <= j < n - 1 && KindOf(all[j]) in {KDefault, KValidator} && all[j].expr.None? {
          var j :| 0 <= j < n - 1 && KindOf(all[j]) in {KDefault, KValidator} && all[j].expr.None?;
          assert !Accepted(all, n);
        } else {
          var i, j :| 0 <= i < j < n - 1 && KindOf(all[i]) == KDefault && KindOf(all[j]) == KDefault;
          assert !Accepted(all, n);
        }
      }
    }
  }

  /** A successful fold's record: the default is the expression of the one
      `default` attribute, `use_into` says whether an `into` occurs, the
      validator is the expression of the last `validator` attribute (a later
      one replaces an earlier one), the documents are every `doc` attribute of
      the whole list once a `doc` attribute has been seen, and `hidden` stays
      unset. */
  lemma {:induction false} FoldFields(all: seq<Attributes.Attribute>, n: nat)
    requires n <= |all|
    requires FoldPrefix(all, n).Ok?
    ensures FoldPrefix(all, n).value.default ==
      (match LastIndex(all, n, KDefault) case None => None case Some(j) => all[j].expr)
    ensures FoldPrefix(all, n).value.useInto <==> LastIndex(all, n, KInto).Some?
    ensures FoldPrefix(all, n).value.validator ==
      (match LastIndex(all, n, KValidator) case None => None case Some(j) => all[j].expr)
    ensures FoldPrefix(all, n).value.documents ==
      (if LastIndex(all, n, KDoc).Some? then Seqs.Filter(all, Attributes.IsDoc) else [])
    ensures !FoldPrefix(all, n).value.hidden
  {
    if n > 0 {
      assert FoldPrefix(all, n - 1).Ok?;
      FoldFields(all, n - 1);
      StepFields(all, all[n - 1], FoldPrefix(all, n - 1).value);
    }
  }

  /** What one accepted step changes: the field its attribute's kind names. */
  lemma StepFields(all: seq<Attributes.Attribute>, a: Attributes.Attribute, acc: FieldAttributes)
    requires Step(all, a, acc).Ok?
    ensures Step(all, a, acc).value.default == (if KindOf(a) == KDefault then a.expr else acc.default)
    ensures Step(all, a, acc).value.useInto == (acc.useInto || KindOf(a) == KInto)
    ensures Step(all, a, acc).value.validator == (if KindOf(a) == KValidator then a.expr else acc.validator)
    ensures Step(all, a, acc).value.documents == (if KindOf(a) == KDoc then Seqs.Filter(all, Attributes.IsDoc) else acc.documents)
    ensures Step(all, a, acc).value.hidden == acc.hidden
  {
  }

  /** With no attributes: no default, no `into`, no validator, no documents. */
  lemma NoAttributes()
    ensures FoldPrefix([], 0) == Ok(FieldAttributes(None, false, None, [], false))
  {
  }

  /** A second `default` attribute on a field is rejected. */
  lemma DuplicateDefaultRejected(attrs: seq<Attributes.Attribute>, i: nat, j: nat)
    requires i < j < |attrs|
    requires KindOf(attrs[i]) == KDefault && KindOf(attrs[j]) == KDefault
    ensures FoldPrefix(attrs, |attrs|).Err?
  {
    FoldAccepted(attrs, |attrs|);
  }
}
