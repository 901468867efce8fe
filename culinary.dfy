/** Food outlets proposed for a city (`services/culinary_agent.py`): each
    outlet is normalised, blank and repeated names are dropped keeping the
    first, and any failure yields a payload with every list empty. */
module Culinary {
  import opened Wrappers
  import opened Text
  import opened Seqs

  // ---------------------------------------------------------------------
  // First occurrence by key
  // ---------------------------------------------------------------------

  /** `xs[i]` has a non-blank key that no earlier element has. */
  predicate FirstAt<T>(xs: seq<T>, key: T -> string, i: int)
    requires 0 <= i < |xs|
  {
    key(xs[i]) != [] && forall j :: 0 <= j < i ==> key(xs[j]) != key(xs[i])
  }

  /** The positions of the first occurrences, in order. */
  function FirstIndices<T>(xs: seq<T>, key: T -> string): (r: seq<nat>)
    ensures forall k :: 0 <= k < |r| ==> r[k] < |xs| && FirstAt(xs, key, r[k])
    ensures forall k, l :: 0 <= k < l < |r| ==> r[k] < r[l]
  {
    if xs == [] then []
    else
      var n := |xs| - 1;
      var pre := FirstIndices(xs[..n], key);
      assert forall k :: 0 <= k < |pre| ==> FirstAt(xs, key, pre[k]) by {
        forall k | 0 <= k < |pre|
          ensures FirstAt(xs, key, pre[k])
        {
          assert FirstAt(xs[..n], key, pre[k]);
        }
      }
      if FirstAt(xs, key, n) then pre + [n] else pre
  }

  /** The elements whose non-blank key was not seen before: the loop with a
      `seen` set, stated without the set. */
  function Firsts<T>(xs: seq<T>, key: T -> string): seq<T> {
    if xs == [] then []
    else Firsts(xs[..|xs| - 1], key) + (if FirstAt(xs, key, |xs| - 1) then [xs[|xs| - 1]] else [])
  }

  /** The keys, blank ones excepted, of a sequence. */
  function KeySet<T>(xs: seq<T>, key: T -> string): set<string> {
    set j | 0 <= j < |xs| && key(xs[j]) != [] :: key(xs[j])
  }

  /** `Firsts` picks exactly the elements at `FirstIndices`: the output is
      the subsequence of first occurrences, in input order. */
  lemma {:induction false} FirstsAreFirstIndices<T>(xs: seq<T>, key: T -> string)
    ensures |Firsts(xs, key)| == |FirstIndices(xs, key)|
    ensures forall k :: 0 <= k < |Firsts(xs, key)| ==> Firsts(xs, key)[k] == xs[FirstIndices(xs, key)[k]]
    decreases |xs|
  {
    if xs != [] {
      FirstsAreFirstIndices(xs[..|xs| - 1], key);
    }
  }

  /** Every first occurrence is kept. */
  lemma {:induction false} FirstIndicesComplete<T>(xs: seq<T>, key: T -> string, i: nat)
    requires i < |xs| && FirstAt(xs, key, i)
    ensures i in FirstIndices(xs, key)
    decreases |xs|
  {
    var n := |xs| - 1;
    if i < n {
      assert FirstAt(xs[..n], key, i);
      FirstIndicesComplete(xs[..n], key, i);
    }
  }

  /** The kept elements have exactly the non-blank keys of the input. */
  lemma {:induction false} FirstsKeys<T>(xs: seq<T>, key: T -> string)
    ensures KeySet(Firsts(xs, key), key) == KeySet(xs, key)
    decreases |xs|
  {
    if xs != [] {
      var n := |xs| - 1;
      var pre, x := xs[..n], xs[n];
      FirstsKeys(pre, key);
      assert xs == pre + [x];
      KeySetAppend(pre, x, key);
      var f := Firsts(pre, key);
      if FirstAt(xs, key, n) {
        KeySetAppend(f, x, key);
      } else if key(x) != [] {
        var j :| 0 <= j < n && key(xs[j]) == key(x);
        assert key(pre[j]) in KeySet(pre, key);
        assert KeySet(xs, key) == KeySet(pre, key);
        assert Firsts(xs, key) == f;
      } else {
        assert Firsts(xs, key) == f;
      }
    }
  }

  lemma KeySetAppend<T>(xs: seq<T>, x: T, key: T -> string)
    ensures KeySet(xs + [x], key) == KeySet(xs, key) + (if key(x) != [] then {key(x)} else {})
  {
    var ys := xs + [x];
    forall k | k in KeySet(ys, key)
      ensures k in KeySet(xs, key) + (if key(x) != [] then {key(x)} else {})
    {
      var j :| 0 <= j < |ys| && key(ys[j]) != [] && key(ys[j]) == k;
      if j < |xs| {
        assert ys[j] == xs[j];
      }
    }
    forall k | k in KeySet(xs, key)
      ensures k in KeySet(ys, key)
    {
      var j :| 0 <= j < |xs| && key(xs[j]) != [] && key(xs[j]) == k;
      assert ys[j] == xs[j];
    }
    if key(x) != [] {
      assert ys[|xs|] == x;
    }
  }

  /** The kept elements have pairwise different, non-blank keys. */
  lemma {:induction false} FirstsDistinct<T>(xs: seq<T>, key: T -> string)
    ensures forall k :: 0 <= k < |Firsts(xs, key)| ==> key(Firsts(xs, key)[k]) != []
    ensures forall k, l :: 0 <= k < l < |Firsts(xs, key)| ==> key(Firsts(xs, key)[k]) != key(Firsts(xs, key)[l])
    decreases |xs|
  {
    if xs != [] {
      var n := |xs| - 1;
      var pre := xs[..n];
      FirstsDistinct(pre, key);
      var f := Firsts(pre, key);
      if FirstAt(xs, key, n) {
        FirstsKeys(pre, key);
        forall k | 0 <= k < |f|
          ensures key(f[k]) != key(xs[n])
        {
          assert key(f[k]) in KeySet(f, key);
          var j :| 0 <= j < n && key(pre[j]) != [] && key(pre[j]) == key(f[k]);
        }
      }
    }
  }

  /** Appending an element extends `Firsts` by it exactly when its key is
      non-blank and not among the keys seen so far. */
  lemma FirstsAppend<T>(xs: seq<T>, x: T, key: T -> string)
    ensures Firsts(xs + [x], key)
         == Firsts(xs, key) + (if key(x) != [] && key(x) !in KeySet(xs, key) then [x] else [])
  {
    var ys := xs + [x];
    assert ys[..|xs|] == xs;
    if key(x) != [] && !FirstAt(ys, key, |xs|) {
      var j :| 0 <= j < |xs| && key(ys[j]) == key(x);
      assert key(xs[j]) in KeySet(xs, key);
    }
  }

  // ---------------------------------------------------------------------
  // Conversion that may fail
  // ---------------------------------------------------------------------

  /** Converting every element, failing when one fails. */
  function Convert<E, T>(es: seq<E>, conv: E -> Option<T>): (r: Option<seq<T>>)
    ensures r.Some? ==> |r.value| == |es| && forall k :: 0 <= k < |es| ==> conv(es[k]) == Some(r.value[k])
    ensures r.None? <==> exists k :: 0 <= k < |es| && conv(es[k]).None?
  {
    if es == [] then Some([])
    else
      var n := |es| - 1;
      match Convert(es[..n], conv)
      case None =>
        var k :| 0 <= k < n && conv(es[..n][k]).None?;
        assert conv(es[k]).None?;
        None
      case Some(xs) =>
        match conv(es[n])
        case None => None
        case Some(x) => Some(xs + [x])
  }

  lemma ConvertStep<E, T>(es: seq<E>, conv: E -> Option<T>, i: nat, done: seq<T>, x: T)
    requires i < |es| && Convert(es[..i], conv) == Some(done) && conv(es[i]) == Some(x)
    ensures Convert(es[..i + 1], conv) == Some(done + [x])
  {
    assert es[..i + 1][..i] == es[..i];
  }

  /** The loop with a `seen` set that appends each converted element whose
      key is non-blank and unseen, and stops at the first failed
      conversion. */
  method KeepFirsts<E, T>(es: seq<E>, conv: E -> Option<T>, key: T -> string) returns (r: Option<seq<T>>)
    ensures r == (match Convert(es, conv) case Some(xs) => Some(Firsts(xs, key)) case None => None)
  {
    var out: seq<T> := [];
    var seen: set<string> := {};
    ghost var done: seq<T> := [];
    var i := 0;
    while i < |es|
      invariant 0 <= i <= |es|
      invariant Convert(es[..i], conv) == Some(done)
      invariant out == Firsts(done, key)
      invariant seen == KeySet(done, key)
    {
      var c := conv(es[i]);
      if c.None? {
        return None;
      }
      var x := c.value;
      ConvertStep(es, conv, i, done, x);
      FirstsAppend(done, x, key);
      KeySetAppend(done, x, key);
      var k := key(x);
      if k != [] && k !in seen {
        out := out + [x];
        seen := seen + {k};
      }
      done := done + [x];
      i := i + 1;
    }
    assert es[..i] == es;
    r := Some(out);
  }

  // ---------------------------------------------------------------------
  // Outlets and the payload
  // ---------------------------------------------------------------------

  /** `float(item.get("legacy_score", 0.0) or 0.0)`: a missing or falsy
      score is 0.0; a value `float` cannot read raises. */
  datatype Score = NoScore | Number(value: real) | Unreadable

  /** An outlet as proposed. Text fields are their `str()` text (`None`
      when the key is missing); list fields are `None` when the value is
      not a list. An element of `food_outlets` that is not a dict is
      `NotADict`. */
  datatype RawOutlet =
    | Proposed(name: Option<string>, area: Option<string>, signatureDishes: Option<seq<string>>,
               mealSlots: Option<seq<string>>, legacyScore: Score, cuisine: Option<string>)
    | NotADict

  datatype Outlet = Outlet(name: string, area: string, signatureDishes: seq<string>, mealSlots: seq<string>,
                           legacyScore: real, cuisine: string)

  /** `_normalize_food_outlet`; `None` where the source raises. */
  function NormalizeFoodOutlet(o: RawOutlet): (r: Option<Outlet>)
    ensures r.None? <==> o.NotADict? || o.legacyScore.Unreadable?
    ensures r.Some? ==> (r.value.name == Strip(o.name.GetOr("")) && r.value.area == Strip(o.area.GetOr(""))
                         && r.value.cuisine == Strip(o.cuisine.GetOr("")))
    ensures r.Some? ==> (r.value.signatureDishes == o.signatureDishes.GetOr([])
                         && r.value.mealSlots == o.mealSlots.GetOr([]))
    ensures r.Some? && o.legacyScore.NoScore? ==> r.value.legacyScore == 0.0
    ensures r.Some? && o.legacyScore.Number? ==> r.value.legacyScore == o.legacyScore.value
  {
    match o
    case NotADict => None
    case Proposed(name, area, dishes, slots, score, cuisine) =>
      match score
      case Unreadable => None
      case NoScore => Some(Outlet(Strip(name.GetOr("")), Strip(area.GetOr("")), dishes.GetOr([]), slots.GetOr([]), 0.0, Strip(cuisine.GetOr(""))))
      case Number(v) => Some(Outlet(Strip(name.GetOr("")), Strip(area.GetOr("")), dishes.GetOr([]), slots.GetOr([]), v, Strip(cuisine.GetOr(""))))
  }

  function Normalizer(): RawOutlet -> Option<Outlet> {
    (o: RawOutlet) => NormalizeFoodOutlet(o)
  }

  /** `normalized["name"].strip().lower()`. */
  function OutletKey(): Outlet -> string {
    (o: Outlet) => Lower(Strip(o.name))
  }

  /** The payload as proposed; a key missing from it is `None`. The six
      style lists are passed through as they are. */
  datatype RawPayload = RawPayload(
    foodOutlets: Option<seq<RawOutlet>>,
    breakfastSignatures: Option<seq<string>>, lunchStyle: Option<seq<string>>, snackSignatures: Option<seq<string>>,
    dinnerStyle: Option<seq<string>>, legacyEstablishments: Option<seq<string>>, heritageFoodClusters: Option<seq<string>>)

  datatype Payload = Payload(
    city: string,
    breakfastSignatures: seq<string>, lunchStyle: seq<string>, snackSignatures: seq<string>,
    dinnerStyle: seq<string>, legacyEstablishments: seq<string>, heritageFoodClusters: seq<string>,
    foodOutlets: seq<Outlet>)

  /** The outlets `_sanitize_culinary_payload` keeps; `None` where it
      raises. */
  function SanitizedOutlets(raw: seq<RawOutlet>): Option<seq<Outlet>> {
    match Convert(raw, Normalizer())
    case Some(xs) => Some(Firsts(xs, OutletKey()))
    case None => None
  }

  function PayloadWith(p: RawPayload, city: string, outlets: seq<Outlet>): Payload {
    Payload(city, p.breakfastSignatures.GetOr([]), p.lunchStyle.GetOr([]), p.snackSignatures.GetOr([]),
            p.dinnerStyle.GetOr([]), p.legacyEstablishments.GetOr([]), p.heritageFoodClusters.GetOr([]), outlets)
  }

  /** `_sanitize_culinary_payload`; `None` where it raises. */
  method SanitizeCulinaryPayload(p: RawPayload, city: string) returns (r: Option<Payload>)
    ensures r.None? <==> SanitizedOutlets(p.foodOutlets.GetOr([])).None?
    ensures r.Some? ==> r.value == PayloadWith(p, city, SanitizedOutlets(p.foodOutlets.GetOr([])).value)
  {
    var outlets := KeepFirsts(p.foodOutlets.GetOr([]), Normalizer(), OutletKey());
    if outlets.None? {
      return None;
    }
    r := Some(PayloadWith(p, city, outlets.value));
  }

  /** The payload of a failed generation: the city and every list empty. */
  function EmptyPayload(city: string): (r: Payload)
    ensures r.city == city && r.foodOutlets == []
    ensures r.breakfastSignatures == r.lunchStyle == r.snackSignatures == r.dinnerStyle == []
    ensures r.legacyEstablishments == r.heritageFoodClusters == []
  {
    Payload(city, [], [], [], [], [], [], [])
  }

  /** `culinary_agent` after the model call: the parsed reply (`None` when
      the call or the JSON parse failed) is sanitised, and any failure gives
      the empty payload. */
  method CulinaryAgent(parsed: Option<RawPayload>, city: string) returns (r: Payload)
    ensures r.city == city
    ensures parsed.None? ==> r == EmptyPayload(city)
    ensures parsed.Some? ==> var outlets := SanitizedOutlets(parsed.value.foodOutlets.GetOr([]));
      r == if outlets.Some? then PayloadWith(parsed.value, city, outlets.value) else EmptyPayload(city)
  {
    if parsed.None? {
      return EmptyPayload(city);
    }
    var p := SanitizeCulinaryPayload(parsed.value, city);
    r := if p.Some? then p.value else EmptyPayload(city);
  }

  /** The kept outlets have pairwise different, non-blank lowered names;
      they are the first outlet of each name, in input order; every
      non-blank name of the input is among them. */
  lemma SanitizedOutletsDistinct(raw: seq<RawOutlet>)
    requires SanitizedOutlets(raw).Some?
    ensures var out, xs := SanitizedOutlets(raw).value, Convert(raw, Normalizer()).value;
      (forall k :: 0 <= k < |out| ==> OutletKey()(out[k]) != [])
      && (forall k, l :: 0 <= k < l < |out| ==> OutletKey()(out[k]) != OutletKey()(out[l]))
      && |out| == |FirstIndices(xs, OutletKey())|
      && (forall k :: 0 <= k < |out| ==> out[k] == xs[FirstIndices(xs, OutletKey())[k]])
      && KeySet(out, OutletKey()) == KeySet(xs, OutletKey())
  {
    var xs := Convert(raw, Normalizer()).value;
    FirstsDistinct(xs, OutletKey());
    FirstsAreFirstIndices(xs, OutletKey());
    FirstsKeys(xs, OutletKey());
  }
}
