/** Filtering and mapping of sequences, the shapes of Python's list
    comprehensions and JavaScript's `filter`/`map`. */
module Seqs {

  /** The elements satisfying `keep`, in order. */
  function Filter<T>(s: seq<T>, keep: T -> bool): (r: seq<T>)
    ensures |r| <= |s|
    ensures forall k :: 0 <= k < |r| ==> keep(r[k])
  {
    if s == [] then []
    else
      var rest := Filter(s[..|s| - 1], keep);
      if keep(s[|s| - 1]) then rest + [s[|s| - 1]] else rest
  }

  lemma FilterAppend<T>(s: seq<T>, x: T, keep: T -> bool)
    ensures Filter(s + [x], keep) == Filter(s, keep) + (if keep(x) then [x] else [])
  {
    assert (s + [x])[..|s|] == s;
  }

  lemma FilterPrefix<T>(s: seq<T>, i: nat, keep: T -> bool)
    requires i < |s|
    ensures Filter(s[..i + 1], keep) == Filter(s[..i], keep) + (if keep(s[i]) then [s[i]] else [])
  {
    assert s[..i + 1][..i] == s[..i];
  }

  /** `Filter` keeps exactly the elements satisfying `keep`. */
  lemma {:induction false} FilterMembers<T>(s: seq<T>, keep: T -> bool, x: T)
    ensures x in Filter(s, keep) <==> x in s && keep(x)
    decreases |s|
  {
    if s != [] {
      var pre := s[..|s| - 1];
      FilterMembers(pre, keep, x);
      assert s == pre + [s[|s| - 1]];
    }
  }

  /** `f` applied to every element, in order. */
  function Map<T, U>(s: seq<T>, f: T -> U): (r: seq<U>)
    ensures |r| == |s|
    ensures forall k :: 0 <= k < |r| ==> r[k] == f(s[k])
  {
    if s == [] then [] else Map(s[..|s| - 1], f) + [f(s[|s| - 1])]
  }

  lemma MapPrefix<T, U>(s: seq<T>, i: nat, f: T -> U)
    requires i < |s|
    ensures Map(s[..i + 1], f) == Map(s[..i], f) + [f(s[i])]
  {
    assert s[..i + 1][..i] == s[..i];
  }

  lemma MapAppend<T, U>(s: seq<T>, x: T, f: T -> U)
    ensures Map(s + [x], f) == Map(s, f) + [f(x)]
  {
    assert (s + [x])[..|s|] == s;
  }

  /** A filtered map holds exactly the images of the accepted elements. */
  lemma MapFilterMembers<T, U>(s: seq<T>, keep: T -> bool, f: T -> U)
    ensures forall y :: y in Map(Filter(s, keep), f) <==> exists i :: 0 <= i < |s| && keep(s[i]) && y == f(s[i])
  {
    var r := Map(Filter(s, keep), f);
    forall y | y in r
      ensures exists i :: 0 <= i < |s| && keep(s[i]) && y == f(s[i])
    {
      MapFilterOrigin(s, keep, f, y);
    }
    forall i | 0 <= i < |s| && keep(s[i])
      ensures f(s[i]) in r
    {
      FilterMembers(s, keep, s[i]);
      var j :| 0 <= j < |Filter(s, keep)| && Filter(s, keep)[j] == s[i];
      assert r[j] == f(s[i]);
    }
  }

  /** Every element of a filtered map comes from an accepted element. */
  lemma {:induction false} MapFilterOrigin<T, U>(s: seq<T>, keep: T -> bool, f: T -> U, y: U)
    requires y in Map(Filter(s, keep), f)
    ensures exists i :: 0 <= i < |s| && keep(s[i]) && y == f(s[i])
    decreases |s|
  {
    assert s != [];
    var pre, x := s[..|s| - 1], s[|s| - 1];
    if keep(x) && y == f(x) {
      assert keep(s[|s| - 1]) && y == f(s[|s| - 1]);
    } else {
      if keep(x) {
        MapAppend(Filter(pre, keep), x, f);
      }
      MapFilterOrigin(pre, keep, f, y);
      var i :| 0 <= i < |pre| && keep(pre[i]) && y == f(pre[i]);
      assert s[i] == pre[i];
    }
  }

  /** The first occurrence of each element `keep` accepts, in order. */
  function Distinct<T(==)>(s: seq<T>, keep: T -> bool): (r: seq<T>)
    ensures forall i, j :: 0 <= i < j < |r| ==> r[i] != r[j]
  {
    if s == [] then []
    else
      var rest := Distinct(s[..|s| - 1], keep);
      var x := s[|s| - 1];
      if keep(x) && x !in rest then rest + [x] else rest
  }

  /** `Distinct` holds exactly the accepted elements. */
  lemma {:induction false} DistinctMembers<T>(s: seq<T>, keep: T -> bool, x: T)
    ensures x in Distinct(s, keep) <==> x in s && keep(x)
    decreases |s|
  {
    if s != [] {
      var pre := s[..|s| - 1];
      DistinctMembers(pre, keep, x);
      assert s == pre + [s[|s| - 1]];
    }
  }

  /** Appending an element already present, or one `keep` rejects, leaves
      `Distinct` as it is; appending a new accepted one appends it. */
  lemma DistinctAppend<T>(s: seq<T>, keep: T -> bool, x: T)
    ensures x in s || !keep(x) ==> Distinct(s + [x], keep) == Distinct(s, keep)
    ensures x !in s && keep(x) ==> Distinct(s + [x], keep) == Distinct(s, keep) + [x]
  {
    assert (s + [x])[..|s|] == s;
    DistinctMembers(s, keep, x);
  }

  /** A loop over `s` that appends `f(x)` when `keep` accepts it and it is
      not yet in the list. */
  method DistinctMapLoop<T, U(==)>(s: seq<T>, f: T -> U, keep: U -> bool) returns (r: seq<U>)
    ensures r == Distinct(Map(s, f), keep)
  {
    r := [];
    var i := 0;
    while i < |s|
      invariant 0 <= i <= |s|
      invariant r == Distinct(Map(s[..i], f), keep)
    {
      MapPrefix(s, i, f);
      var y := f(s[i]);
      assert Map(s[..i + 1], f)[..i] == Map(s[..i], f);
      if keep(y) && y !in r {
        r := r + [y];
      }
      i := i + 1;
    }
    assert s[..|s|] == s;
  }

  /** `[f(i, x) for i, x in enumerate(s)]`. */
  function MapIndexed<T, U>(s: seq<T>, f: (nat, T) -> U): (r: seq<U>)
    ensures |r| == |s|
    ensures forall k :: 0 <= k < |r| ==> r[k] == f(k, s[k])
  {
    if s == [] then [] else MapIndexed(s[..|s| - 1], f) + [f(|s| - 1, s[|s| - 1])]
  }

  /** The `enumerate` loop that appends `f(i, x)` for each element. */
  method MapIndexedLoop<T, U>(s: seq<T>, f: (nat, T) -> U) returns (r: seq<U>)
    ensures r == MapIndexed(s, f)
  {
    r := [];
    var i := 0;
    while i < |s|
      invariant 0 <= i <= |s|
      invariant |r| == i
      invariant forall k :: 0 <= k < i ==> r[k] == f(k, s[k])
    {
      r := r + [f(i, s[i])];
      i := i + 1;
    }
  }

  /** A loop that skips the elements `keep` rejects and appends `f` of the
      others, in order. */
  method FilterMapLoop<T, U>(s: seq<T>, keep: T -> bool, f: T -> U) returns (r: seq<U>)
    ensures r == Map(Filter(s, keep), f)
  {
    r := [];
    var i := 0;
    while i < |s|
      invariant 0 <= i <= |s|
      invariant r == Map(Filter(s[..i], keep), f)
    {
      FilterPrefix(s, i, keep);
      if keep(s[i]) {
        MapAppend(Filter(s[..i], keep), s[i], f);
        r := r + [f(s[i])];
      }
      i := i + 1;
    }
    assert s[..|s|] == s;
  }

  function Not<T>(p: T -> bool): T -> bool {
    x => !p(x)
  }

  /** A loop that appends each element to one of two lists by `p`. */
  method PartitionLoop<T>(s: seq<T>, p: T -> bool) returns (yes: seq<T>, no: seq<T>)
    ensures yes == Filter(s, p) && no == Filter(s, Not(p))
  {
    yes, no := [], [];
    var i := 0;
    while i < |s|
      invariant 0 <= i <= |s|
      invariant yes == Filter(s[..i], p) && no == Filter(s[..i], Not(p))
    {
      FilterPrefix(s, i, p);
      FilterPrefix(s, i, Not(p));
      if p(s[i]) {
        yes := yes + [s[i]];
      } else {
        no := no + [s[i]];
      }
      i := i + 1;
    }
    assert s[..|s|] == s;
  }

  /** Every element lands in exactly one side, so the sides together are a
      permutation of the input. */
  lemma {:induction false} PartitionPermutation<T>(s: seq<T>, p: T -> bool)
    ensures multiset(Filter(s, p)) + multiset(Filter(s, Not(p))) == multiset(s)
    decreases |s|
  {
    if s != [] {
      var pre := s[..|s| - 1];
      PartitionPermutation(pre, p);
      assert s == pre + [s[|s| - 1]];
    }
  }

  /** Python's `sum`: a left-to-right total. */
  function Total(xs: seq<real>): real {
    if xs == [] then 0.0 else Total(xs[..|xs| - 1]) + xs[|xs| - 1]
  }

  lemma {:induction false} TotalNonNegative(xs: seq<real>)
    requires forall k :: 0 <= k < |xs| ==> xs[k] >= 0.0
    ensures Total(xs) >= 0.0
    decreases |xs|
  {
    if xs != [] {
      TotalNonNegative(xs[..|xs| - 1]);
    }
  }

  lemma {:induction false} TotalAppend(xs: seq<real>, ys: seq<real>)
    ensures Total(xs + ys) == Total(xs) + Total(ys)
    decreases |ys|
  {
    if ys == [] {
      assert xs + ys == xs;
    } else {
      var zs := xs + ys;
      assert zs[..|zs| - 1] == xs + ys[..|ys| - 1];
      TotalAppend(xs, ys[..|ys| - 1]);
    }
  }

  /** Each term within `[lo, hi]` puts the total within `n` times those bounds. */
  lemma {:induction false} TotalBounds(xs: seq<real>, lo: real, hi: real)
    requires forall k :: 0 <= k < |xs| ==> lo <= xs[k] <= hi
    ensures lo * |xs| as real <= Total(xs) <= hi * |xs| as real
    decreases |xs|
  {
    if xs != [] {
      TotalBounds(xs[..|xs| - 1], lo, hi);
      assert lo * |xs| as real == lo * (|xs| - 1) as real + lo;
      assert hi * |xs| as real == hi * (|xs| - 1) as real + hi;
    }
  }

  lemma {:induction false} FilterConcat<T>(a: seq<T>, b: seq<T>, keep: T -> bool)
    ensures Filter(a + b, keep) == Filter(a, keep) + Filter(b, keep)
    decreases |b|
  {
    if b == [] {
      assert a + b == a;
    } else {
      var b' := b[..|b| - 1];
      assert (a + b)[..|a + b| - 1] == a + b';
      FilterConcat(a, b', keep);
    }
  }

  lemma {:induction false} MapConcat<T, U>(a: seq<T>, b: seq<T>, f: T -> U)
    ensures Map(a + b, f) == Map(a, f) + Map(b, f)
    decreases |b|
  {
    if b == [] {
      assert a + b == a;
    } else {
      var b' := b[..|b| - 1];
      assert (a + b)[..|a + b| - 1] == a + b';
      MapConcat(a, b', f);
    }
  }

  lemma MapFilterConcat<T, U>(a: seq<T>, b: seq<T>, keep: T -> bool, f: T -> U)
    ensures Map(Filter(a + b, keep), f) == Map(Filter(a, keep), f) + Map(Filter(b, keep), f)
  {
    FilterConcat(a, b, keep);
    MapConcat(Filter(a, keep), Filter(b, keep), f);
  }

  /** Taking the last element off one of two permutations of each other
      and one occurrence of it off the other leaves permutations. */
  lemma RemoveOne<T>(xs: seq<T>, ys: seq<T>, j: nat)
    requires multiset(xs) == multiset(ys) && xs != [] && j < |ys| && ys[j] == xs[|xs| - 1]
    ensures multiset(xs[..|xs| - 1]) == multiset(ys[..j] + ys[j + 1..])
  {
    var pre, x, a, b := xs[..|xs| - 1], xs[|xs| - 1], ys[..j], ys[j + 1..];
    assert xs == pre + [x];
    assert ys == a + [x] + b;
    forall y
      ensures multiset(pre)[y] == multiset(a + b)[y]
    {
      assert multiset(xs)[y] == multiset(pre)[y] + multiset{x}[y];
      assert multiset(ys)[y] == multiset(a)[y] + multiset{x}[y] + multiset(b)[y];
    }
    assert multiset(pre) == multiset(a + b);
  }

  /** Filtering and mapping a permutation gives a permutation of the
      result. */
  lemma {:induction false} MapFilterMultiset<T, U>(xs: seq<T>, ys: seq<T>, keep: T -> bool, f: T -> U)
    requires multiset(xs) == multiset(ys)
    ensures multiset(Map(Filter(xs, keep), f)) == multiset(Map(Filter(ys, keep), f))
    decreases |xs|
  {
    if xs == [] {
      assert |ys| == |multiset(ys)| == 0;
    } else {
      var pre, x := xs[..|xs| - 1], xs[|xs| - 1];
      assert x in multiset(ys) by {
        assert xs == pre + [x];
      }
      var j :| 0 <= j < |ys| && ys[j] == x;
      var a, b := ys[..j], ys[j + 1..];
      RemoveOne(xs, ys, j);
      MapFilterMultiset(pre, a + b, keep, f);
      MapFilterSplit(xs, ys, j, keep, f);
    }
  }

  lemma MapFilterSplit<T, U>(xs: seq<T>, ys: seq<T>, j: nat, keep: T -> bool, f: T -> U)
    requires xs != [] && j < |ys| && ys[j] == xs[|xs| - 1]
    ensures Map(Filter(xs, keep), f) == Map(Filter(xs[..|xs| - 1], keep), f) + Map(Filter([ys[j]], keep), f)
    ensures multiset(Map(Filter(ys, keep), f))
         == multiset(Map(Filter(ys[..j] + ys[j + 1..], keep), f)) + multiset(Map(Filter([ys[j]], keep), f))
  {
    assert xs == xs[..|xs| - 1] + [ys[j]];
    MapFilterConcat(xs[..|xs| - 1], [ys[j]], keep, f);
    MapFilterRemove(ys, j, keep, f);
  }

  lemma MapFilterRemove<T, U>(ys: seq<T>, j: nat, keep: T -> bool, f: T -> U)
    requires j < |ys|
    ensures multiset(Map(Filter(ys, keep), f))
         == multiset(Map(Filter(ys[..j] + ys[j + 1..], keep), f)) + multiset(Map(Filter([ys[j]], keep), f))
  {
    var a, one, b := ys[..j], [ys[j]], ys[j + 1..];
    SplitAround(ys, j);
    var fa, fo, fb := Map(Filter(a, keep), f), Map(Filter(one, keep), f), Map(Filter(b, keep), f);
    assert Map(Filter(ys, keep), f) == fa + (fo + fb) by {
      MapFilterConcat(a, one + b, keep, f);
      MapFilterConcat(one, b, keep, f);
    }
    assert Map(Filter(a + b, keep), f) == fa + fb by {
      MapFilterConcat(a, b, keep, f);
    }
    MultisetMiddle(fa, fo, fb);
  }

  lemma ConsSplit<T>(s: seq<T>)
    requires s != []
    ensures s == [s[0]] + s[1..]
  {
  }

  lemma SnocSplit<T>(s: seq<T>)
    requires s != []
    ensures s == s[..|s| - 1] + [s[|s| - 1]]
  {
  }

  lemma PrefixStep<T>(a: seq<T>, s: seq<T>, i: nat)
    requires i < |s|
    ensures a + s[..i + 1] == (a + s[..i]) + [s[i]]
  {
    assert s[..i + 1] == s[..i] + [s[i]];
  }

  lemma AllCons<T>(x: T, xs: seq<T>, p: T -> bool)
    requires p(x) && forall k :: 0 <= k < |xs| ==> p(xs[k])
    ensures forall k :: 0 <= k < |[x] + xs| ==> p(([x] + xs)[k])
  {
  }

  lemma ConcatAssoc<T>(a: seq<T>, b: seq<T>, c: seq<T>)
    ensures a + (b + c) == (a + b) + c
  {
  }

  lemma SplitAround<T>(s: seq<T>, j: nat)
    requires j < |s|
    ensures s == s[..j] + ([s[j]] + s[j + 1..])
  {
  }

  lemma MultisetMiddle<U>(p: seq<U>, q: seq<U>, r: seq<U>)
    ensures multiset(p + (q + r)) == multiset(p + r) + multiset(q)
  {
  }

  /** Replacing every element by `g` of it changes neither which elements
      `keep` accepts nor what `f` makes of them, when `keep` and `f` do not
      see the difference. */
  lemma {:induction false} MapFilterAbsorbs<T>(xs: seq<T>, g: T -> T, keep: T -> bool, f: T -> T)
    requires forall x :: keep(g(x)) == keep(x) && f(g(x)) == f(x)
    ensures Map(Filter(Map(xs, g), keep), f) == Map(Filter(xs, keep), f)
    decreases |xs|
  {
    if xs != [] {
      var pre, x := xs[..|xs| - 1], xs[|xs| - 1];
      MapFilterAbsorbs(pre, g, keep, f);
      assert Map(xs, g) == Map(pre, g) + [g(x)];
      FilterAppend(Map(pre, g), g(x), keep);
      if keep(x) {
        MapAppend(Filter(Map(pre, g), keep), g(x), f);
        MapAppend(Filter(pre, keep), x, f);
      }
    }
  }

  /** A filter that accepts everything and a map that changes nothing
      leave the sequence as it is. */
  lemma {:induction false} MapFilterFixed<T>(xs: seq<T>, keep: T -> bool, f: T -> T)
    requires forall k :: 0 <= k < |xs| ==> keep(xs[k]) && f(xs[k]) == xs[k]
    ensures Map(Filter(xs, keep), f) == xs
    decreases |xs|
  {
    if xs != [] {
      var pre, x := xs[..|xs| - 1], xs[|xs| - 1];
      assert xs == pre + [x];
      MapFilterFixed(pre, keep, f);
      FilterAppend(pre, x, keep);
      MapAppend(Filter(pre, keep), x, f);
      assert Map(Filter(xs, keep), f) == Map(Filter(pre, keep), f) + [f(x)];
    }
  }

  /** Each term at least `lo` puts the total at least `n` times `lo`. */
  lemma {:induction false} TotalAtLeast(xs: seq<real>, lo: real)
    requires forall k :: 0 <= k < |xs| ==> lo <= xs[k]
    ensures lo * |xs| as real <= Total(xs)
    decreases |xs|
  {
    if xs != [] {
      TotalAtLeast(xs[..|xs| - 1], lo);
      assert lo * |xs| as real == lo * (|xs| - 1) as real + lo;
    }
  }

  /** One more step of a loop that builds `[f(k, xs[k], ys[k]) for k ...]`. */
  lemma Map2Step<A, B, C>(r: seq<C>, xs: seq<A>, ys: seq<B>, f: (nat, A, B) -> C, x: C)
    requires |r| < |xs| && |r| < |ys|
    requires forall k :: 0 <= k < |r| ==> r[k] == f(k, xs[k], ys[k])
    requires x == f(|r|, xs[|r|], ys[|r|])
    ensures forall k :: 0 <= k < |r| + 1 ==> (r + [x])[k] == f(k, xs[k], ys[k])
  {
  }
}
