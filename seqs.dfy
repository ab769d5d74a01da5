/** Sequence helpers used for iterator chains of the generator:
    `filter`, and token streams whose items are each followed by a comma
    (`TokenStreamExt::append_terminated`). */
module Seqs {

  /** A token stream: the text of each token, in order. */
  type Tokens = seq<string>

  /** `iter().filter(p).collect()`. */
  function Filter<T>(s: seq<T>, p: T -> bool): (r: seq<T>)
    ensures |r| <= |s|
    ensures forall x :: x in r ==> x in s && p(x)
  {
    if s == [] then [] else (if p(s[0]) then [s[0]] else []) + Filter(s[1..], p)
  }

  /** A one-element sequence keeps its element exactly when it passes. */
  lemma FilterSingle<T>(x: T, p: T -> bool)
    ensures Filter([x], p) == if p(x) then [x] else []
  {
    assert [x][1..] == [];
  }

  /** Filtering by a predicate and by its complement splits the multiset. */
  lemma {:induction false} FilterSplit<T>(s: seq<T>, p: T -> bool, q: T -> bool)
    requires forall x :: q(x) <==> !p(x)
    ensures multiset(Filter(s, p) + Filter(s, q)) == multiset(s)
  {
    if s != [] {
      FilterSplit(s[1..], p, q);
      if p(s[0]) {
        FilterSplitHead(s, p, q);
      } else {
        var fp := Filter(s[1..], p);
        var fq := Filter(s[1..], q);
        assert multiset(fq + fp) == multiset(fp + fq);
        FilterSplitHead(s, q, p);
        assert multiset(Filter(s, p) + Filter(s, q)) == multiset(Filter(s, q) + Filter(s, p));
      }
    }
  }

  /** One step of `FilterSplit` when the head of `s` passes `p` and fails
      `q`. */
  lemma FilterSplitHead<T>(s: seq<T>, p: T -> bool, q: T -> bool)
    requires s != [] && p(s[0]) && !q(s[0])
    requires multiset(Filter(s[1..], p) + Filter(s[1..], q)) == multiset(s[1..])
    ensures multiset(Filter(s, p) + Filter(s, q)) == multiset(s)
  {
    var x := s[0];
    var t := s[1..];
    assert s == [x] + t;
    var a := Filter(t, p);
    var b := Filter(t, q);
    assert Filter(s, p) == [x] + a;
    assert Filter(s, q) == b;
    MultisetCons(x, a, b, t, Filter(s, p), Filter(s, q), s);
  }

  /** Putting `x` in front of one side of a split puts it in front of the
      whole. */
  lemma MultisetCons<T>(x: T, a: seq<T>, b: seq<T>, t: seq<T>, a': seq<T>, b': seq<T>, s: seq<T>)
    requires a' == [x] + a && b' == b && s == [x] + t
    requires multiset(a + b) == multiset(t)
    ensures multiset(a' + b') == multiset(s)
  {
    assert a' + b' == [x] + (a + b);
  }

  /** Appending one element extends the filtered sequence by that element
      exactly when it passes. */
  lemma FilterSnoc<T>(s: seq<T>, x: T, p: T -> bool)
    ensures Filter(s + [x], p) == if p(x) then Filter(s, p) + [x] else Filter(s, p)
  {
    FilterAppend(s, [x], p);
    FilterSingle(x, p);
  }

  /** Appending one element to a filtered and mapped sequence adds its
      image when it passes the filter. */
  lemma MapFilterSnoc<T, U>(s: seq<T>, x: T, p: T -> bool, f: T -> U)
    ensures Map(Filter(s + [x], p), f) == Map(Filter(s, p), f) + (if p(x) then [f(x)] else [])
  {
    FilterSnoc(s, x, p);
    if p(x) {
      MapAppend(Filter(s, p), [x], f);
    }
  }

  lemma {:induction false} FilterAppend<T>(a: seq<T>, b: seq<T>, p: T -> bool)
    ensures Filter(a + b, p) == Filter(a, p) + Filter(b, p)
  {
    if a == [] {
      assert a + b == b;
    } else {
      assert (a + b)[0] == a[0];
      assert (a + b)[1..] == a[1..] + b;
      FilterAppend(a[1..], b, p);
    }
  }

  /** Filtering keeps every element that passes, as often as it occurs, and
      drops every element that fails. */
  lemma {:induction false} FilterCount<T>(s: seq<T>, p: T -> bool, x: T)
    ensures multiset(Filter(s, p))[x] == if p(x) then multiset(s)[x] else 0
  {
    if s != [] {
      FilterCount(s[1..], p, x);
      assert s == [s[0]] + s[1..];
      assert multiset(s) == multiset([s[0]]) + multiset(s[1..]);
    }
  }

  /** Filtering with a predicate every element passes is the identity. */
  lemma {:induction false} FilterAll<T>(s: seq<T>, p: T -> bool)
    requires forall k :: 0 <= k < |s| ==> p(s[k])
    ensures Filter(s, p) == s
  {
    if s != [] {
      FilterAll(s[1..], p);
    }
  }

  /** Filtering twice with the same predicate changes nothing more. */
  lemma FilterIdempotent<T>(s: seq<T>, p: T -> bool)
    ensures Filter(Filter(s, p), p) == Filter(s, p)
  {
    var r := Filter(s, p);
    forall k | 0 <= k < |r| ensures p(r[k]) {
      assert r[k] in r;
    }
    FilterAll(r, p);
  }

  /** Filtering keeps every element exactly when every element passes. */
  lemma {:induction false} FilterKeepsAll<T>(s: seq<T>, p: T -> bool)
    ensures |Filter(s, p)| == |s| <==> forall k :: 0 <= k < |s| ==> p(s[k])
  {
    if s != [] {
      FilterKeepsAll(s[1..], p);
      assert forall k :: 1 <= k < |s| ==> s[k] == s[1..][k - 1];
    }
  }

  /** Filtering drops everything exactly when no element passes. */
  lemma {:induction false} FilterDropsAll<T>(s: seq<T>, p: T -> bool)
    ensures Filter(s, p) == [] <==> forall k :: 0 <= k < |s| ==> !p(s[k])
  {
    if s != [] {
      FilterDropsAll(s[1..], p);
      assert forall k :: 1 <= k < |s| ==> s[k] == s[1..][k - 1];
    }
  }

  /** The items of `items`, each followed by a `,` token. */
  function Terminated(items: seq<Tokens>): (r: Tokens)
  {
    if items == [] then [] else items[0] + [","] + Terminated(items[1..])
  }

  lemma {:induction false} TerminatedAppend(a: seq<Tokens>, b: seq<Tokens>)
    ensures Terminated(a + b) == Terminated(a) + Terminated(b)
  {
    if a == [] {
      assert a + b == b;
    } else {
      assert (a + b)[0] == a[0];
      assert (a + b)[1..] == a[1..] + b;
      TerminatedAppend(a[1..], b);
    }
  }

  /** When every item is a single token, item `k` sits at position `2k` and
      its comma right after it. */
  lemma {:induction false} TerminatedSingles(items: seq<Tokens>, k: nat)
    requires forall j :: 0 <= j < |items| ==> |items[j]| == 1
    requires k < |items|
    ensures |Terminated(items)| == 2 * |items|
    ensures Terminated(items)[2 * k] == items[k][0]
    ensures Terminated(items)[2 * k + 1] == ","
  {
    if k == 0 {
      if |items| > 1 {
        TerminatedSingles(items[1..], 0);
      }
    } else {
      TerminatedSingles(items[1..], k - 1);
    }
  }

  /** Wraps each token as a one-token stream. */
  function Singles(ts: seq<string>): (r: seq<Tokens>)
    ensures |r| == |ts|
    ensures forall k :: 0 <= k < |ts| ==> r[k] == [ts[k]]
  {
    seq(|ts|, k requires 0 <= k < |ts| => [ts[k]])
  }

  /** A non-empty terminated stream ends with a comma. */
  lemma {:induction false} TerminatedEndsWithComma(items: seq<Tokens>)
    requires items != []
    ensures Terminated(items) != [] && Terminated(items)[|Terminated(items)| - 1] == ","
  {
    if |items| > 1 {
      TerminatedEndsWithComma(items[1..]);
    }
  }

  /** The items of `items` with a `,` token between each two. */
  function Separated(items: seq<Tokens>): (r: Tokens)
  {
    if items == [] then []
    else if |items| == 1 then items[0]
    else items[0] + [","] + Separated(items[1..])
  }

  /** Adding the final comma to a separated stream gives the terminated one. */
  lemma {:induction false} SeparatedTerminated(items: seq<Tokens>)
    requires items != []
    ensures Separated(items) + [","] == Terminated(items)
  {
    if |items| == 1 {
      assert items[1..] == [];
    } else {
      SeparatedTerminated(items[1..]);
    }
  }

  /** A terminated stream is empty exactly when there are no items. */
  lemma TerminatedEmpty(items: seq<Tokens>)
    ensures Terminated(items) == [] <==> items == []
  {
    if items != [] {
      TerminatedEndsWithComma(items);
    }
  }

  /** `iter().map(f).collect()`. */
  function Map<T, U>(s: seq<T>, f: T -> U): (r: seq<U>)
    ensures |r| == |s|
    ensures forall k :: 0 <= k < |s| ==> r[k] == f(s[k])
  {
    seq(|s|, k requires 0 <= k < |s| => f(s[k]))
  }

  lemma MapAppend<T, U>(a: seq<T>, b: seq<T>, f: T -> U)
    ensures Map(a + b, f) == Map(a, f) + Map(b, f)
  {
  }

  /** Appending one element adds its item and a comma at the end. */
  lemma TerminatedMapSnoc<T>(s: seq<T>, x: T, f: T -> Tokens)
    ensures Terminated(Map(s + [x], f)) == Terminated(Map(s, f)) + (f(x) + [","])
  {
    MapAppend(s, [x], f);
    assert Map([x], f) == [f(x)];
    TerminatedAppend(Map(s, f), [f(x)]);
    assert Terminated([f(x)]) == f(x) + [","];
  }

  /** The token streams of `items` one after the other. */
  function Concat(items: seq<Tokens>): (r: Tokens)
  {
    if items == [] then [] else items[0] + Concat(items[1..])
  }

  lemma {:induction false} ConcatAppend(a: seq<Tokens>, b: seq<Tokens>)
    ensures Concat(a + b) == Concat(a) + Concat(b)
  {
    if a == [] {
      assert a + b == b;
    } else {
      assert (a + b)[1..] == a[1..] + b;
      ConcatAppend(a[1..], b);
    }
  }
}
