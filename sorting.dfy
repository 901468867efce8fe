/** Stable sorting as the source uses it: Python's `list.sort(key=...,
    reverse=True)` and `sorted(...)`, JavaScript's `Array.prototype.sort`
    with a numeric comparator. All of them are stable (ES2019 and later for
    JavaScript; `reverse=True` in Python keeps equal keys in input order).
    The sorts are library calls in the source, so they are functions here,
    written as insertion sorts whose results are characterised by lemmas. */
module Sorting {
  import opened Seqs

  // ---------------------------------------------------------------------
  // Sorting by a two-part numeric key, largest first
  // ---------------------------------------------------------------------

  /** A sort key compared lexicographically, like a Python tuple `(major, minor)`. */
  datatype Key = Key(major: real, minor: real)

  predicate Greater(a: Key, b: Key) {
    a.major > b.major || (a.major == b.major && a.minor > b.minor)
  }

  /** No element is strictly greater than an earlier one. */
  predicate SortedDesc<T>(s: seq<T>, key: T -> Key) {
    forall i, j :: 0 <= i < j < |s| ==> !Greater(key(s[j]), key(s[i]))
  }

  /** Inserts `x` before the first element whose key is strictly smaller. */
  function InsertDesc<T>(x: T, s: seq<T>, key: T -> Key): (r: seq<T>)
    ensures |r| == |s| + 1
  {
    if s == [] then [x]
    else if Greater(key(x), key(s[0])) then [x] + s
    else [s[0]] + InsertDesc(x, s[1..], key)
  }

  /** Inserting adds exactly one occurrence of `x`. */
  lemma {:induction false} InsertDescPermutation<T>(x: T, s: seq<T>, key: T -> Key)
    ensures multiset(InsertDesc(x, s, key)) == multiset(s) + multiset{x}
    decreases |s|
  {
    if s != [] && !Greater(key(x), key(s[0])) {
      InsertDescPermutation(x, s[1..], key);
      ConsSplit(s);
    }
  }

  /** An element of a sequence is an element of any permutation of it. */
  lemma PermutationMember<T>(xs: seq<T>, ys: seq<T>, i: nat)
    requires multiset(xs) == multiset(ys) && i < |xs|
    ensures xs[i] in ys
  {
    assert xs[i] in multiset(xs);
  }

  /** Where an element of a permutation sits in the other sequence. */
  lemma PermutationIndex<T>(xs: seq<T>, ys: seq<T>, i: nat) returns (j: nat)
    requires multiset(xs) == multiset(ys) && i < |xs|
    ensures j < |ys| && ys[j] == xs[i]
  {
    PermutationMember(xs, ys, i);
    j :| j < |ys| && ys[j] == xs[i];
  }

  /** Stable sort, largest key first (`sort(key=..., reverse=True)`). */
  function SortDesc<T>(s: seq<T>, key: T -> Key): (r: seq<T>)
    ensures |r| == |s|
    ensures multiset(r) == multiset(s)
  {
    if s == [] then []
    else
      var p := SortDesc(s[..|s| - 1], key);
      InsertDescPermutation(s[|s| - 1], p, key);
      assert s == s[..|s| - 1] + [s[|s| - 1]];
      InsertDesc(s[|s| - 1], p, key)
  }

  /** An element no greater than any of a sorted sequence goes last. */
  lemma {:induction false} InsertDescLast<T>(x: T, s: seq<T>, key: T -> Key)
    requires forall i :: 0 <= i < |s| ==> !Greater(key(x), key(s[i]))
    ensures InsertDesc(x, s, key) == s + [x]
    decreases |s|
  {
    if s != [] {
      InsertDescLast(x, s[1..], key);
      assert s == [s[0]] + s[1..];
    }
  }

  /** Sorting an already sorted sequence leaves it unchanged. */
  lemma {:induction false} SortDescOfSorted<T>(s: seq<T>, key: T -> Key)
    requires SortedDesc(s, key)
    ensures SortDesc(s, key) == s
    decreases |s|
  {
    if s != [] {
      var p, x := s[..|s| - 1], s[|s| - 1];
      SnocSplit(s);
      SortedDescSplit(p, x, key);
      SortDescOfSorted(p, key);
      SortDescOfSortedStep(p, x, key);
    }
  }

  /** The prefix of a sorted sequence is sorted, and its last element is
      greater than none before it. */
  lemma SortedDescSplit<T>(p: seq<T>, x: T, key: T -> Key)
    requires SortedDesc(p + [x], key)
    ensures SortedDesc(p, key)
    ensures forall i :: 0 <= i < |p| ==> !Greater(key(x), key(p[i]))
  {
    var s := p + [x];
    assert forall i :: 0 <= i < |p| ==> s[i] == p[i];
    assert s[|p|] == x;
  }

  lemma SortDescOfSortedStep<T>(p: seq<T>, x: T, key: T -> Key)
    requires SortDesc(p, key) == p
    requires forall i :: 0 <= i < |p| ==> !Greater(key(x), key(p[i]))
    ensures SortDesc(p + [x], key) == p + [x]
  {
    var s := p + [x];
    assert s[..|s| - 1] == p && s[|s| - 1] == x;
    assert SortDesc(s, key) == InsertDesc(x, SortDesc(p, key), key);
    InsertDescLast(x, p, key);
  }

  /** The elements of `s` whose key is `k`, in order. */
  function WithKey<T>(s: seq<T>, key: T -> Key, k: Key): seq<T>
  {
    if s == [] then [] else (if key(s[0]) == k then [s[0]] else []) + WithKey(s[1..], key, k)
  }

  lemma {:induction false} WithKeyAppend<T>(a: seq<T>, b: seq<T>, key: T -> Key, k: Key)
    ensures WithKey(a + b, key, k) == WithKey(a, key, k) + WithKey(b, key, k)
    decreases |a|
  {
    if a != [] {
      assert a + b != [] && (a + b)[0] == a[0] && (a + b)[1..] == a[1..] + b;
      WithKeyAppend(a[1..], b, key, k);
      var h := if key(a[0]) == k then [a[0]] else [];
      assert WithKey(a + b, key, k) == h + WithKey(a[1..] + b, key, k);
      assert WithKey(a, key, k) == h + WithKey(a[1..], key, k);
    } else {
      assert a + b == b;
    }
  }

  lemma {:induction false} InsertDescSorted<T>(x: T, s: seq<T>, key: T -> Key)
    requires SortedDesc(s, key)
    ensures SortedDesc(InsertDesc(x, s, key), key)
    decreases |s|
  {
    if s != [] && !Greater(key(x), key(s[0])) {
      InsertDescSorted(x, s[1..], key);
      var r := InsertDesc(x, s, key);
      var t := InsertDesc(x, s[1..], key);
      assert r == [s[0]] + t;
      InsertDescPermutation(x, s[1..], key);
      forall j | 0 < j < |r| ensures !Greater(key(r[j]), key(s[0])) {
        assert r[j] in multiset(t);
        assert r[j] in multiset(s[1..]) + multiset{x};
        if r[j] != x {
          assert r[j] in s[1..];
        }
      }
    }
  }

  lemma {:induction false} SortDescSorted<T>(s: seq<T>, key: T -> Key)
    ensures SortedDesc(SortDesc(s, key), key)
    decreases |s|
  {
    if s != [] {
      SortDescSorted(s[..|s| - 1], key);
      InsertDescSorted(s[|s| - 1], SortDesc(s[..|s| - 1], key), key);
    }
  }

  lemma {:induction false} InsertDescStable<T>(x: T, s: seq<T>, key: T -> Key, k: Key)
    requires SortedDesc(s, key)
    ensures WithKey(InsertDesc(x, s, key), key, k) == WithKey(s, key, k) + WithKey([x], key, k)
    decreases |s|
  {
    if s == [] {
      assert WithKey(s, key, k) == [];
    } else if Greater(key(x), key(s[0])) {
      InsertFrontStable(x, s, key, k);
    } else {
      SortedDescTail(s, key);
      InsertDescStable(x, s[1..], key, k);
      InsertLaterStable(x, s, key, k);
    }
  }

  lemma InsertFrontStable<T>(x: T, s: seq<T>, key: T -> Key, k: Key)
    requires SortedDesc(s, key) && s != [] && Greater(key(x), key(s[0]))
    ensures WithKey(InsertDesc(x, s, key), key, k) == WithKey(s, key, k) + WithKey([x], key, k)
  {
    assert InsertDesc(x, s, key) == [x] + s;
    WithKeyAppend([x], s, key, k);
    if key(x) == k {
      NoneWithKey(s, key, k);
    } else {
      assert WithKey([x], key, k) == [];
    }
  }

  lemma InsertLaterStable<T>(x: T, s: seq<T>, key: T -> Key, k: Key)
    requires s != [] && !Greater(key(x), key(s[0]))
    requires WithKey(InsertDesc(x, s[1..], key), key, k) == WithKey(s[1..], key, k) + WithKey([x], key, k)
    ensures WithKey(InsertDesc(x, s, key), key, k) == WithKey(s, key, k) + WithKey([x], key, k)
  {
    var h, t := [s[0]], InsertDesc(x, s[1..], key);
    var wh, ws, wx := WithKey(h, key, k), WithKey(s[1..], key, k), WithKey([x], key, k);
    assert WithKey(InsertDesc(x, s, key), key, k) == wh + (ws + wx) by {
      assert InsertDesc(x, s, key) == h + t;
      WithKeyAppend(h, t, key, k);
    }
    assert WithKey(s, key, k) == wh + ws by {
      WithKeyAppend(h, s[1..], key, k);
      ConsSplit(s);
    }
    ConcatAssoc(wh, ws, wx);
  }

  lemma SortedDescTail<T>(s: seq<T>, key: T -> Key)
    requires s != [] && SortedDesc(s, key)
    ensures SortedDesc(s[1..], key)
  {
    forall i, j | 0 <= i < j < |s| - 1
      ensures !Greater(key(s[1..][j]), key(s[1..][i]))
    {
      assert s[1..][i] == s[i + 1] && s[1..][j] == s[j + 1];
    }
  }

  lemma {:induction false} NoneWithKey<T>(s: seq<T>, key: T -> Key, k: Key)
    requires SortedDesc(s, key)
    requires s != [] && Greater(k, key(s[0]))
    ensures WithKey(s, key, k) == []
    decreases |s|
  {
    if |s| > 1 {
      assert !Greater(key(s[1]), key(s[0]));
      NoneWithKey(s[1..], key, k);
    }
  }

  /** Stability: for every key, the elements carrying it keep their input order. */
  lemma {:induction false} SortDescStable<T>(s: seq<T>, key: T -> Key, k: Key)
    ensures WithKey(SortDesc(s, key), key, k) == WithKey(s, key, k)
    decreases |s|
  {
    if s != [] {
      var p, x := s[..|s| - 1], s[|s| - 1];
      SnocSplit(s);
      assert SortDesc(s, key) == InsertDesc(x, SortDesc(p, key), key);
      SortDescSorted(p, key);
      SortDescStable(p, key, k);
      InsertDescStable(x, SortDesc(p, key), key, k);
      WithKeyAppend(p, [x], key, k);
    }
  }

  // ---------------------------------------------------------------------
  // Sorting strings by code point (Python's `sorted` on a list of str)
  // ---------------------------------------------------------------------

  /** Python's `a <= b` on strings: lexicographic by code point. */
  predicate StrLe(a: string, b: string)
    decreases |a|
  {
    a == [] || (b != [] && (a[0] < b[0] || (a[0] == b[0] && StrLe(a[1..], b[1..]))))
  }

  lemma {:induction false} StrLeReflexive(a: string)
    ensures StrLe(a, a)
    decreases |a|
  {
    if a != [] {
      StrLeReflexive(a[1..]);
    }
  }

  lemma {:induction false} StrLeTotal(a: string, b: string)
    ensures StrLe(a, b) || StrLe(b, a)
    decreases |a|
  {
    if a != [] && b != [] && a[0] == b[0] {
      StrLeTotal(a[1..], b[1..]);
    }
  }

  lemma {:induction false} StrLeAntisymmetric(a: string, b: string)
    requires StrLe(a, b) && StrLe(b, a)
    ensures a == b
    decreases |a|
  {
    if a != [] {
      StrLeAntisymmetric(a[1..], b[1..]);
      assert a == [a[0]] + a[1..] && b == [b[0]] + b[1..];
    }
  }

  lemma {:induction false} StrLeTransitive(a: string, b: string, c: string)
    requires StrLe(a, b) && StrLe(b, c)
    ensures StrLe(a, c)
    decreases |a|
  {
    if a != [] && a[0] == b[0] && b[0] == c[0] {
      StrLeTransitive(a[1..], b[1..], c[1..]);
    }
  }

  predicate SortedStr(s: seq<string>) {
    forall i, j :: 0 <= i < j < |s| ==> StrLe(s[i], s[j])
  }

  function InsertStr(x: string, s: seq<string>): (r: seq<string>)
    ensures |r| == |s| + 1
    ensures multiset(r) == multiset(s) + multiset{x}
  {
    if s == [] then [x]
    else if StrLe(x, s[0]) then [x] + s
    else
      var r := [s[0]] + InsertStr(x, s[1..]);
      assert s == [s[0]] + s[1..];
      r
  }

  /** `sorted(s)` for a list of strings. */
  function SortStrings(s: seq<string>): (r: seq<string>)
    ensures |r| == |s|
    ensures multiset(r) == multiset(s)
  {
    if s == [] then []
    else
      var r := InsertStr(s[|s| - 1], SortStrings(s[..|s| - 1]));
      assert s == s[..|s| - 1] + [s[|s| - 1]];
      r
  }

  lemma {:induction false} InsertStrSorted(x: string, s: seq<string>)
    requires SortedStr(s)
    ensures SortedStr(InsertStr(x, s))
    decreases |s|
  {
    if s != [] {
      if StrLe(x, s[0]) {
        forall j | 0 < j < |s| + 1 ensures StrLe(x, ([x] + s)[j]) {
          if j > 1 {
            StrLeTransitive(x, s[0], s[j - 1]);
          }
        }
      } else {
        StrLeTotal(x, s[0]);
        InsertStrSorted(x, s[1..]);
        var r := InsertStr(x, s);
        var t := InsertStr(x, s[1..]);
        assert r == [s[0]] + t;
        forall j | 0 < j < |r| ensures StrLe(s[0], r[j]) {
          assert r[j] in multiset(s[1..]) + multiset{x};
          if r[j] != x {
            assert r[j] in s[1..];
          }
        }
      }
    }
  }

  lemma {:induction false} SortStringsSorted(s: seq<string>)
    ensures SortedStr(SortStrings(s))
    decreases |s|
  {
    if s != [] {
      SortStringsSorted(s[..|s| - 1]);
      InsertStrSorted(s[|s| - 1], SortStrings(s[..|s| - 1]));
    }
  }

  lemma SortedHeadIsLeast(a: seq<string>, x: string)
    requires SortedStr(a) && x in a
    ensures StrLe(a[0], x)
  {
    var i :| 0 <= i < |a| && a[i] == x;
    if i == 0 {
      StrLeReflexive(x);
    }
  }

  /** A sorted arrangement of a multiset of strings is unique. */
  lemma {:induction false} SortedStrUnique(a: seq<string>, b: seq<string>)
    requires SortedStr(a) && SortedStr(b)
    requires multiset(a) == multiset(b)
    ensures a == b
    decreases |a|
  {
    assert |a| == |multiset(a)| == |b|;
    if a != [] {
      assert a[0] in multiset(b) && b[0] in multiset(a);
      SortedHeadIsLeast(a, b[0]);
      SortedHeadIsLeast(b, a[0]);
      StrLeAntisymmetric(a[0], b[0]);
      TailMultiset(a);
      TailMultiset(b);
      SortedStrUnique(a[1..], b[1..]);
      ConsSplit(a);
      ConsSplit(b);
    }
  }

  lemma TailMultiset(a: seq<string>)
    requires a != []
    ensures multiset(a[1..]) == multiset(a) - multiset{a[0]}
  {
    ConsSplit(a);
  }

  /** `sorted` depends only on the multiset of its input, so any
      permutation of the input gives the same list. */
  lemma SortStringsPermutation(a: seq<string>, b: seq<string>)
    requires multiset(a) == multiset(b)
    ensures SortStrings(a) == SortStrings(b)
  {
    SortStringsSorted(a);
    SortStringsSorted(b);
    SortedStrUnique(SortStrings(a), SortStrings(b));
  }

  /** Sorting an already sorted list returns it unchanged. */
  lemma SortStringsOfSorted(s: seq<string>)
    requires SortedStr(s)
    ensures SortStrings(s) == s
  {
    SortStringsSorted(s);
    SortedStrUnique(SortStrings(s), s);
  }
}
