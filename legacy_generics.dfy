/** The generic parameter lists of the earlier generators
    (`tokenize_types` and `tokenize_impl`, identical in src/struct_input.rs
    and src/structure.rs). Unlike the current generator, these copy the
    commas written between the struct's parameters (`Pair::punct`) and track
    with a `trailing_or_empty` flag whether one is still owed. Every
    parameter but the last is followed by a comma in the declaration; the
    last one is when the declaration ends with a trailing comma. */
module LegacyGenerics {
  import opened Seqs
  import StructInputs

  type GenericParam = StructInputs.GenericParam

  /** Whether parameter `k` is followed by a comma in the declaration. */
  predicate Punct(params: seq<GenericParam>, trailing: bool, k: nat)
  {
    k + 1 < |params| || trailing
  }

  function Comma(b: bool): Tokens
  {
    if b then [","] else []
  }

  /** `trailing_or_empty` after the first pass has seen `n` parameters: the
      comma of the last lifetime so far, or `true` when there is none. */
  function LifetimeFlag(params: seq<GenericParam>, trailing: bool, n: nat): bool
    requires n <= |params|
  {
    if n == 0 then true
    else if params[n - 1].LifetimeParam? then Punct(params, trailing, n - 1)
    else LifetimeFlag(params, trailing, n - 1)
  }

  /** The tokens written and the flag after the second pass has seen `n`
      parameters: each non-lifetime is preceded by a comma when one is owed
      and followed by its own comma, if any; `item` is what is written for
      the parameter itself. */
  function SecondPass(params: seq<GenericParam>, trailing: bool, n: nat, item: GenericParam -> Tokens): (Tokens, bool)
    requires n <= |params|
  {
    if n == 0 then ([], LifetimeFlag(params, trailing, |params|))
    else
      var prev := SecondPass(params, trailing, n - 1, item);
      if params[n - 1].LifetimeParam? then prev
      else (prev.0 + Comma(!prev.1) + item(params[n - 1]) + Comma(Punct(params, trailing, n - 1)), true)
  }

  /** What `tokenize_types` writes for a type or const parameter: its
      identifier, the default left off. */
  function TypeIdent(p: GenericParam): Tokens
  {
    match p
    case TypeParam(_, ident, _, _, _) => [ident]
    case ConstParam(_, ident, _, _) => [ident]
    case LifetimeParam(_, _) => []
  }

  /** What `tokenize_types` writes: nothing without parameters, else the
      second pass followed by one more comma. */
  function TypesTokens(g: StructInputs.Generics, trailing: bool): Tokens
  {
    if g.params == [] then [] else SecondPass(g.params, trailing, |g.params|, TypeIdent).0 + [","]
  }

  /** `tokenize_types`. */
  method TokenizeTypes(g: StructInputs.Generics, trailing: bool) returns (tokens: Tokens)
    ensures tokens == TypesTokens(g, trailing)
  {
    var params := g.params;
    tokens := [];
    if params == [] {
      return;
    }
    var trailingOrEmpty := true;
    var i := 0;
    while i < |params|
      invariant 0 <= i <= |params|
      invariant trailingOrEmpty == LifetimeFlag(params, trailing, i)
    {
      if params[i].LifetimeParam? {
        trailingOrEmpty := Punct(params, trailing, i);
      }
      i := i + 1;
    }
    i := 0;
    while i < |params|
      invariant 0 <= i <= |params|
      invariant (tokens, trailingOrEmpty) == SecondPass(params, trailing, i, TypeIdent)
    {
      if !params[i].LifetimeParam? {
        tokens := tokens + Comma(!trailingOrEmpty) + TypeIdent(params[i]) + Comma(Punct(params, trailing, i));
        trailingOrEmpty := true;
      }
      i := i + 1;
    }
    tokens := tokens + [","];
  }

  /** The first pass of `tokenize_impl` over `n` parameters: each lifetime
      with its bounds and its comma, if any. */
  function FirstPass(params: seq<GenericParam>, trailing: bool, n: nat): Tokens
    requires n <= |params|
  {
    if n == 0 then []
    else
      FirstPass(params, trailing, n - 1) +
      (if params[n - 1].LifetimeParam? then StructInputs.ImplItem(params[n - 1]) + Comma(Punct(params, trailing, n - 1)) else [])
  }

  /** What `tokenize_impl` writes: the two passes, then a comma unless
      nothing was written. */
  function ImplTokens(g: StructInputs.Generics, trailing: bool): Tokens
  {
    var t := FirstPass(g.params, trailing, |g.params|) + SecondPass(g.params, trailing, |g.params|, StructInputs.ImplItem).0;
    if t == [] then [] else t + [","]
  }

  /** `tokenize_impl`. */
  method TokenizeImpl(g: StructInputs.Generics, trailing: bool) returns (tokens: Tokens)
    ensures tokens == ImplTokens(g, trailing)
  {
    var params := g.params;
    tokens := [];
    var trailingOrEmpty := true;
    var i := 0;
    while i < |params|
      invariant 0 <= i <= |params|
      invariant tokens == FirstPass(params, trailing, i)
      invariant trailingOrEmpty == LifetimeFlag(params, trailing, i)
    {
      if params[i].LifetimeParam? {
        tokens := tokens + StructInputs.ImplItem(params[i]) + Comma(Punct(params, trailing, i));
        trailingOrEmpty := Punct(params, trailing, i);
      }
      i := i + 1;
    }
    var first := tokens;
    var rest: Tokens := [];
    i := 0;
    while i < |params|
      invariant 0 <= i <= |params|
      invariant (rest, trailingOrEmpty) == SecondPass(params, trailing, i, StructInputs.ImplItem)
    {
      if !params[i].LifetimeParam? {
        rest := rest + Comma(!trailingOrEmpty) + StructInputs.ImplItem(params[i]) + Comma(Punct(params, trailing, i));
        trailingOrEmpty := true;
      }
      i := i + 1;
    }
    tokens := first + rest;
    if tokens != [] {
      tokens := tokens + [","];
    }
  }

  // ---- what the two lists amount to ----

  predicate NotLifetime(p: GenericParam)
  {
    !p.LifetimeParam?
  }

  /** The non-lifetimes among the first `n` parameters, each written and
      followed by a comma. */
  function Written(params: seq<GenericParam>, n: nat, item: GenericParam -> Tokens): Tokens
    requires n <= |params|
  {
    if n == 0 then []
    else Written(params, n - 1, item) + (if NotLifetime(params[n - 1]) then item(params[n - 1]) + [","] else [])
  }

  /** Before the last parameter every parameter has its comma, so with a
      last parameter that is not a lifetime no comma is ever owed. */
  lemma {:induction false} SecondPassPrefix(params: seq<GenericParam>, n: nat, item: GenericParam -> Tokens)
    requires n < |params| && !params[|params| - 1].LifetimeParam?
    ensures SecondPass(params, false, n, item).0 == Written(params, n, item)
    ensures SecondPass(params, false, n, item).1
  {
    if n == 0 {
      assert LifetimeFlag(params, false, |params|) == LifetimeFlag(params, false, |params| - 1);
      LifetimeFlagBeforeLast(params, |params| - 1);
    } else {
      SecondPassPrefix(params, n - 1, item);
      var x := params[n - 1];
      var w := Written(params, n - 1, item);
      if NotLifetime(x) {
        assert Punct(params, false, n - 1);
        SecondPassWithComma(params, n, item);
        assert w + [] + item(x) + [","] == w + (item(x) + [","]);
      } else {
        assert w + [] == w;
      }
    }
  }

  /** One step of the second pass at a non-lifetime when no comma is owed
      before it and its own comma follows it. */
  lemma SecondPassWithComma(params: seq<GenericParam>, n: nat, item: GenericParam -> Tokens)
    requires 0 < n <= |params| && !params[n - 1].LifetimeParam?
    requires SecondPass(params, false, n - 1, item).1 && Punct(params, false, n - 1)
    ensures SecondPass(params, false, n, item).0 == SecondPass(params, false, n - 1, item).0 + [] + item(params[n - 1]) + [","]
    ensures SecondPass(params, false, n, item).1
  {
  }

  /** `Written` is the kept items, each followed by a comma. */
  lemma {:induction false} WrittenTerminated(params: seq<GenericParam>, n: nat, item: GenericParam -> Tokens)
    requires n <= |params|
    ensures Written(params, n, item) == Terminated(Map(Filter(params[..n], NotLifetime), item))
  {
    if n > 0 {
      WrittenTerminated(params, n - 1, item);
      var x := params[n - 1];
      var before := Filter(params[..n - 1], NotLifetime);
      assert params[..n] == params[..n - 1] + [x];
      FilterSnoc(params[..n - 1], x, NotLifetime);
      if NotLifetime(x) {
        TerminatedMapSnoc(before, x, item);
      }
    }
  }

  /** Every lifetime before the last parameter has its comma. */
  lemma {:induction false} LifetimeFlagBeforeLast(params: seq<GenericParam>, n: nat)
    requires n < |params|
    ensures LifetimeFlag(params, false, n)
  {
    if n > 0 {
      LifetimeFlagBeforeLast(params, n - 1);
    }
  }

  /** The last parameter is written without a comma of its own. */
  lemma SecondPassLast(params: seq<GenericParam>, item: GenericParam -> Tokens)
    requires params != [] && !params[|params| - 1].LifetimeParam?
    ensures SecondPass(params, false, |params|, item).0 == Written(params, |params| - 1, item) + item(params[|params| - 1])
  {
    var n := |params|;
    SecondPassPrefix(params, n - 1, item);
    SecondPassNoCommas(params, n, item);
  }

  /** One step of the second pass at a non-lifetime when no comma is owed
      before it and none follows it. */
  lemma SecondPassNoCommas(params: seq<GenericParam>, n: nat, item: GenericParam -> Tokens)
    requires 0 < n <= |params| && !params[n - 1].LifetimeParam?
    requires SecondPass(params, false, n - 1, item).1 && n == |params|
    ensures SecondPass(params, false, n, item).0 == SecondPass(params, false, n - 1, item).0 + item(params[n - 1])
  {
    var w := SecondPass(params, false, n - 1, item).0;
    assert !Punct(params, false, n - 1);
    assert SecondPass(params, false, n, item).0 == w + [] + item(params[n - 1]) + [];
    assert w + [] + item(params[n - 1]) + [] == w + item(params[n - 1]);
  }

  /** The whole second pass and the closing comma: each non-lifetime item
      followed by a comma. */
  lemma SecondPassWhole(params: seq<GenericParam>, item: GenericParam -> Tokens)
    requires params != [] && !params[|params| - 1].LifetimeParam?
    ensures SecondPass(params, false, |params|, item).0 + [","] == Terminated(Map(Filter(params, NotLifetime), item))
  {
    var n := |params|;
    var x := params[n - 1];
    SecondPassLast(params, item);
    var w := Written(params, n - 1, item);
    assert Written(params, n, item) == w + (item(x) + [","]);
    assert w + item(x) + [","] == w + (item(x) + [","]);
    WrittenTerminated(params, n, item);
    assert params[..n] == params;
  }

  /** Filtering with predicates that agree everywhere gives the same result. */
  lemma {:induction false} FilterSame<T>(s: seq<T>, p: T -> bool, q: T -> bool)
    requires forall x :: p(x) == q(x)
    ensures Filter(s, p) == Filter(s, q)
  {
    if s != [] {
      FilterSame(s[1..], p, q);
    }
  }

  /** Without a trailing comma, and with a last parameter that is not a
      lifetime (Rust declares lifetimes first, so this is every struct with a
      type or const parameter), `tokenize_types` writes what the current
      generator writes: each type and const identifier followed by a comma. */
  lemma TypesAgree(g: StructInputs.Generics)
    requires g.params != [] && !g.params[|g.params| - 1].LifetimeParam?
    ensures TypesTokens(g, false) == StructInputs.TypesTokens(g, [], false)
    ensures TypesTokens(g, false) == Terminated(Singles(StructInputs.TypeNames(g.params, [], false)))
  {
    var keep := (p: GenericParam) => StructInputs.Emitted(p, [], false);
    SecondPassWhole(g.params, TypeIdent);
    FilterSame(g.params, NotLifetime, keep);
    StructInputs.TypeNamesAreFilterMap(g.params, [], false);
    var kept := Filter(g.params, keep);
    var names := StructInputs.TypeNames(g.params, [], false);
    assert names == Map(kept, (p: GenericParam) => StructInputs.Renamed(p, []));
    forall k | 0 <= k < |kept| ensures Map(kept, TypeIdent)[k] == Singles(names)[k] {
      assert kept[k] in kept;
    }
    assert Map(kept, TypeIdent) == Singles(names);
  }

  /** Without a trailing comma, and with a last parameter that is not a
      lifetime, `tokenize_impl` writes what the current generator writes with
      nothing filtered out: the lifetimes, then the other parameters, each
      followed by a comma. */
  lemma ImplAgree(g: StructInputs.Generics)
    requires g.params != [] && !g.params[|g.params| - 1].LifetimeParam?
    ensures ImplTokens(g, false) == StructInputs.ImplTokens(g, [])
  {
    var params := g.params;
    var n := |params|;
    var last := params[n - 1];
    var first := FirstPass(params, false, n);
    var second := SecondPass(params, false, n, StructInputs.ImplItem).0;
    FirstPassLifetimes(params, n);
    assert params[..n] == params;
    assert first == Terminated(StructInputs.LifetimeItems(params));
    SecondPassWhole(params, StructInputs.ImplItem);
    SecondPassLast(params, StructInputs.ImplItem);
    FilterSame(params, NotLifetime, (p: GenericParam) => !p.LifetimeParam? && StructInputs.Kept(p, []));
    assert second + [","] == Terminated(StructInputs.OtherItems(params, []));
    assert StructInputs.ImplItem(last) != [] by {
      match last
      case TypeParam(attrs, ident, colon, bounds, _) =>
        var t := StructInputs.OuterAttrTokens(attrs) + [ident];
        assert t[|t| - 1] == ident;
      case ConstParam(_, _, _, _) =>
    }
    assert second != [];
    assert first + second != [];
    assert ImplTokens(g, false) == (first + second) + [","];
    assert (first + second) + [","] == first + (second + [","]);
    assert !StructInputs.AllFiltered(params, []) by {
      assert !(params[0].TypeParam? && params[0].ident in []);
    }
  }

  /** Without a trailing comma, the first pass writes each lifetime followed
      by a comma, as long as no lifetime is the last parameter. */
  lemma {:induction false} FirstPassLifetimes(params: seq<GenericParam>, n: nat)
    requires n <= |params| && params != [] && !params[|params| - 1].LifetimeParam?
    ensures FirstPass(params, false, n) == Terminated(Map(Filter(params[..n], StructInputs.IsLifetime), StructInputs.ImplItem))
  {
    if n > 0 {
      FirstPassLifetimes(params, n - 1);
      assert params[..n] == params[..n - 1] + [params[n - 1]];
      FilterAppend(params[..n - 1], [params[n - 1]], StructInputs.IsLifetime);
      MapAppend(Filter(params[..n - 1], StructInputs.IsLifetime), Filter([params[n - 1]], StructInputs.IsLifetime), StructInputs.ImplItem);
      TerminatedAppend(Map(Filter(params[..n - 1], StructInputs.IsLifetime), StructInputs.ImplItem),
                       Map(Filter([params[n - 1]], StructInputs.IsLifetime), StructInputs.ImplItem));
    }
    assert params[..|params|] == params;
  }

  /** The second pass writes nothing for lifetimes. */
  lemma {:induction false} SecondPassLifetimesOnly(params: seq<GenericParam>, trailing: bool, n: nat, item: GenericParam -> Tokens)
    requires n <= |params|
    requires forall k :: 0 <= k < |params| ==> params[k].LifetimeParam?
    ensures SecondPass(params, trailing, n, item).0 == []
  {
    if n > 0 {
      SecondPassLifetimesOnly(params, trailing, n - 1, item);
    }
  }

  /** A struct whose parameters are all lifetimes (`struct S<'a>`) gets a
      lone comma from `tokenize_types`, so the generated `S<'a, ,>` and
      `SBuilder<'a, , ...>` do not parse; the current generator writes
      nothing there. */
  lemma LifetimesOnlyStrayComma(g: StructInputs.Generics, trailing: bool)
    requires g.params != []
    requires forall k :: 0 <= k < |g.params| ==> g.params[k].LifetimeParam?
    ensures TypesTokens(g, trailing) == [","]
    ensures StructInputs.TypesTokens(g, [], false) == []
  {
    SecondPassLifetimesOnly(g.params, trailing, |g.params|, TypeIdent);
    StructInputs.LifetimesOnlyGiveNoTypes(g, [], false);
  }

  /** A declaration with a trailing comma after a type parameter
      (`struct S<T,>`) makes both lists end with two commas (`T,,`), which
      does not parse in a generic argument or parameter list. */
  lemma TrailingCommaDoubled(g: StructInputs.Generics)
    requires g.params != [] && !g.params[|g.params| - 1].LifetimeParam?
    ensures |TypesTokens(g, true)| >= 2 && TypesTokens(g, true)[|TypesTokens(g, true)| - 2..] == [",", ","]
    ensures |ImplTokens(g, true)| >= 2 && ImplTokens(g, true)[|ImplTokens(g, true)| - 2..] == [",", ","]
  {
    var n := |g.params|;
    var t := SecondPass(g.params, true, n, TypeIdent);
    assert TypesTokens(g, true) == t.0 + [","];
    var i := SecondPass(g.params, true, n, StructInputs.ImplItem);
    assert i.0[|i.0| - 1] == ",";
    var all := FirstPass(g.params, true, n) + i.0;
    assert all[|all| - 1] == ",";
  }
}
