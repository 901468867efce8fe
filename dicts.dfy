/** A Python `dict` with string keys: the keys in insertion order and the
    entries. Assigning to a present key replaces its value and keeps its
    position; assigning to a new key appends it. */
module Dicts {

  datatype Dict<V> = Dict(keys: seq<string>, entries: map<string, V>)

  /** Keys are distinct and are exactly the entries' domain. */
  ghost predicate Valid<V>(d: Dict<V>) {
    (forall i, j :: 0 <= i < j < |d.keys| ==> d.keys[i] != d.keys[j]) &&
    (forall k :: k in d.entries <==> k in d.keys)
  }

  function Empty<V>(): Dict<V> {
    Dict([], map[])
  }

  /** `d[k] = v`. */
  function Put<V>(d: Dict<V>, k: string, v: V): (r: Dict<V>)
    ensures r.entries == d.entries[k := v]
    ensures k in d.entries ==> r.keys == d.keys
    ensures k !in d.entries ==> r.keys == d.keys + [k]
  {
    if k in d.entries then Dict(d.keys, d.entries[k := v]) else Dict(d.keys + [k], d.entries[k := v])
  }

  lemma PutValid<V>(d: Dict<V>, k: string, v: V)
    requires Valid(d)
    ensures Valid(Put(d, k, v))
  {
  }

  /** `list(d.values())`. */
  function Values<V>(d: Dict<V>): (r: seq<V>)
    requires forall i :: 0 <= i < |d.keys| ==> d.keys[i] in d.entries
    ensures |r| == |d.keys|
    ensures forall i :: 0 <= i < |r| ==> r[i] == d.entries[d.keys[i]]
    decreases |d.keys|
  {
    if d.keys == [] then []
    else Values(Dict(d.keys[..|d.keys| - 1], d.entries)) + [d.entries[d.keys[|d.keys| - 1]]]
  }

  /** The dict a loop builds by assigning `d[key(x)] = entry(x)` for every
      `x` of `xs` that `keep` accepts, in order. */
  function Build<T, V>(xs: seq<T>, key: T -> string, keep: T -> bool, entry: T -> V): Dict<V> {
    if xs == [] then Empty()
    else
      var d := Build(xs[..|xs| - 1], key, keep, entry);
      var x := xs[|xs| - 1];
      if keep(x) then Put(d, key(x), entry(x)) else d
  }

  lemma BuildPrefix<T, V>(xs: seq<T>, i: nat, key: T -> string, keep: T -> bool, entry: T -> V)
    requires i < |xs|
    ensures Build(xs[..i + 1], key, keep, entry)
         == (var d := Build(xs[..i], key, keep, entry);
             if keep(xs[i]) then Put(d, key(xs[i]), entry(xs[i])) else d)
  {
    assert xs[..i + 1][..i] == xs[..i];
  }

  /** The loop itself. */
  method BuildLoop<T, V>(xs: seq<T>, key: T -> string, keep: T -> bool, entry: T -> V)
    returns (d: Dict<V>)
    ensures d == Build(xs, key, keep, entry)
  {
    d := Empty();
    var i := 0;
    while i < |xs|
      invariant 0 <= i <= |xs|
      invariant d == Build(xs[..i], key, keep, entry)
    {
      BuildPrefix(xs, i, key, keep, entry);
      if keep(xs[i]) {
        d := Put(d, key(xs[i]), entry(xs[i]));
      }
      i := i + 1;
    }
    assert xs[..|xs|] == xs;
  }

  lemma {:induction false} BuildValid<T, V>(xs: seq<T>, key: T -> string, keep: T -> bool, entry: T -> V)
    ensures Valid(Build(xs, key, keep, entry))
    decreases |xs|
  {
    if xs != [] {
      BuildValid(xs[..|xs| - 1], key, keep, entry);
    }
  }

  /** A key is present exactly when some accepted element carries it. */
  lemma {:induction false} BuildKeys<T, V>(xs: seq<T>, key: T -> string, keep: T -> bool, entry: T -> V, k: string)
    ensures k in Build(xs, key, keep, entry).entries <==> exists i :: 0 <= i < |xs| && keep(xs[i]) && key(xs[i]) == k
    decreases |xs|
  {
    if xs != [] {
      var pre := xs[..|xs| - 1];
      BuildKeys(pre, key, keep, entry, k);
      if exists i :: 0 <= i < |xs| && keep(xs[i]) && key(xs[i]) == k {
        var i :| 0 <= i < |xs| && keep(xs[i]) && key(xs[i]) == k;
        if i < |pre| {
          assert pre[i] == xs[i];
        }
      }
      if exists i :: 0 <= i < |pre| && keep(pre[i]) && key(pre[i]) == k {
        var i :| 0 <= i < |pre| && keep(pre[i]) && key(pre[i]) == k;
        assert xs[i] == pre[i];
      }
    }
  }

  /** The last accepted element with a key decides its value: later
      assignments overwrite earlier ones. */
  lemma {:induction false} BuildLastWins<T, V>(xs: seq<T>, key: T -> string, keep: T -> bool, entry: T -> V, j: nat)
    requires j < |xs| && keep(xs[j])
    requires forall i :: j < i < |xs| && keep(xs[i]) ==> key(xs[i]) != key(xs[j])
    ensures key(xs[j]) in Build(xs, key, keep, entry).entries
    ensures Build(xs, key, keep, entry).entries[key(xs[j])] == entry(xs[j])
    decreases |xs|
  {
    var pre := xs[..|xs| - 1];
    if j < |pre| {
      BuildLastWins(pre, key, keep, entry, j);
      assert pre[j] == xs[j];
    }
  }

  /** Every value was produced from an accepted element with its key. */
  lemma {:induction false} BuildEntryFrom<T, V>(xs: seq<T>, key: T -> string, keep: T -> bool, entry: T -> V, k: string)
    requires k in Build(xs, key, keep, entry).entries
    ensures exists i :: 0 <= i < |xs| && keep(xs[i]) && key(xs[i]) == k && Build(xs, key, keep, entry).entries[k] == entry(xs[i])
    decreases |xs|
  {
    var pre, x := xs[..|xs| - 1], xs[|xs| - 1];
    if keep(x) && key(x) == k {
      assert xs[|xs| - 1] == x;
    } else {
      BuildEntryFrom(pre, key, keep, entry, k);
      var i :| 0 <= i < |pre| && keep(pre[i]) && key(pre[i]) == k && Build(pre, key, keep, entry).entries[k] == entry(pre[i]);
      assert xs[i] == pre[i];
    }
  }

  /** Keys keep the position of their first assignment: building from more
      elements only appends keys. */
  lemma {:induction false} BuildKeysPrefix<T, V>(xs: seq<T>, ys: seq<T>, key: T -> string, keep: T -> bool, entry: T -> V)
    ensures |Build(xs, key, keep, entry).keys| <= |Build(xs + ys, key, keep, entry).keys|
    ensures Build(xs + ys, key, keep, entry).keys[..|Build(xs, key, keep, entry).keys|] == Build(xs, key, keep, entry).keys
    decreases |ys|
  {
    if ys == [] {
      assert xs + ys == xs;
    } else {
      var pre := ys[..|ys| - 1];
      BuildKeysPrefix(xs, pre, key, keep, entry);
      assert xs + ys == (xs + pre) + [ys[|ys| - 1]];
      assert (xs + ys)[..|xs + pre|] == xs + pre;
    }
  }
}
