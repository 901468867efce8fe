/** The pure and loop-based cores of the discovery agents
    (`services/agents.py`): extraction of the `{...}` span from model
    output, ranking of places by rating and interests, and the first-wins
    merge of catalog and augmented places. */
module Agents {
  import opened Wrappers
  import opened Text
  import opened Names
  import opened Sorting
  import opened Places
  import opened Seqs

  // ---------------------------------------------------------------------
  // JSON span extraction
  // ---------------------------------------------------------------------

  /** The first position of `c`, if any. */
  function IndexOf(s: string, c: char): (r: Option<nat>)
    ensures r.None? ==> c !in s
    ensures r.Some? ==> r.value < |s| && s[r.value] == c && c !in s[..r.value]
  {
    if s == [] then None
    else if s[0] == c then Some(0)
    else match IndexOf(s[1..], c)
      case None => None
      case Some(i) =>
        assert s[..i + 1] == [s[0]] + s[1..][..i];
        Some(i + 1)
  }

  /** The last position of `c`, if any. */
  function LastIndexOf(s: string, c: char): (r: Option<nat>)
    ensures r.None? ==> c !in s
    ensures r.Some? ==> r.value < |s| && s[r.value] == c && c !in s[r.value + 1..]
  {
    if s == [] then None
    else if s[|s| - 1] == c then Some(|s| - 1)
    else
      var r := LastIndexOf(s[..|s| - 1], c);
      if r.Some? then
        assert s[r.value + 1..] == s[..|s| - 1][r.value + 1..] + [s[|s| - 1]];
        r
      else
        assert s == s[..|s| - 1] + [s[|s| - 1]];
        r
  }

  /** Some `{` comes before some `}`. */
  predicate HasBracePair(s: string) {
    exists i, j :: 0 <= i < j < |s| && s[i] == '{' && s[j] == '}'
  }

  /** `re.search(r"\{.*\}", s, re.DOTALL)`: greedy, so from the first `{`
      to the last `}`; no match when no `{` precedes a `}`. */
  function BraceSpan(s: string): (r: Option<string>)
    ensures r.None? <==> !HasBracePair(s)
    ensures r.Some? ==> exists a :: SliceAt(s, a, r.value) && '{' !in s[..a] && '}' !in s[a + |r.value|..]
    ensures r.Some? ==> |r.value| >= 2 && r.value[0] == '{' && r.value[|r.value| - 1] == '}'
  {
    match IndexOf(s, '{')
    case None => None
    case Some(i) =>
      match LastIndexOf(s, '}')
      case None => None
      case Some(j) =>
        if i < j then
          var t := s[i..j + 1];
          assert SliceAt(s, i, t) && s[i + |t|..] == s[j + 1..];
          Some(t)
        else
          assert !HasBracePair(s) by {
            forall a, b | 0 <= a < b < |s| && s[a] == '{'
              ensures s[b] != '}'
            {
              forall x | 0 <= x < i ensures s[x] != '{' {
                assert s[x] in s[..i];
              }
            }
          }
          None
  }

  /** The brace span of the cleaned text, or the error `_clean_json`
      raises when there is none. */
  function ExtractSpan(s: string): (r: Result<string>)
    ensures r.Err? <==> !HasBracePair(s)
    ensures r.Ok? ==> BraceSpan(s) == Some(r.value)
    ensures r.Ok? ==> |r.value| >= 2 && r.value[0] == '{' && r.value[|r.value| - 1] == '}'
  {
    match BraceSpan(s)
    case None => Err("No valid JSON object found in the raw string")
    case Some(t) => Ok(t)
  }

  /** `_clean_json` up to the JSON decoding: strip, drop the "```json" and
      "```" fence markers, strip again, and take the brace span. */
  function CleanJsonSpan(raw: string): Result<string> {
    ExtractSpan(StripFences(raw))
  }

  function StripFences(raw: string): string {
    Strip(Replace(Replace(Strip(raw), "```json", ""), "```", ""))
  }

  lemma {:induction false} ReplaceAbsent(s: string, pat: string, sub: string)
    requires pat != [] && '`' in pat && '`' !in s
    ensures Replace(s, pat, sub) == s
    decreases |s|
  {
    if s != [] {
      assert !StartsWith(s, pat) by {
        var k :| 0 <= k < |pat| && pat[k] == '`';
        if |pat| <= |s| {
          assert s[k] != '`';
        }
      }
      ReplaceAbsent(s[1..], pat, sub);
      assert s == [s[0]] + s[1..];
    }
  }

  lemma StripFencesNoop(t: string)
    requires '`' !in t && |t| >= 2 && t[0] == '{' && t[|t| - 1] == '}'
    ensures StripFences(t) == t
  {
    TrimNoop(t, IsPySpace);
    ReplaceAbsent(t, "```json", "");
    ReplaceAbsent(t, "```", "");
  }

  lemma HeadInPrefix(s: string, b: int)
    ensures 0 < b <= |s| ==> s[0] in s[..b]
  {
    if 0 < b <= |s| {
      assert s[..b][0] == s[0];
    }
  }

  lemma LastInSuffix(s: string, e: int)
    ensures 0 <= e < |s| ==> s[|s| - 1] in s[e..]
  {
    if 0 <= e < |s| {
      assert s[e..][|s| - 1 - e] == s[|s| - 1];
    }
  }

  /** A string from `{` to `}` is its own brace span. */
  lemma BraceSpanWhole(t: string)
    requires |t| >= 2 && t[0] == '{' && t[|t| - 1] == '}'
    ensures BraceSpan(t) == Some(t)
  {
    assert HasBracePair(t);
    var u := BraceSpan(t).value;
    var b :| SliceAt(t, b, u) && '{' !in t[..b] && '}' !in t[b + |u|..];
    HeadInPrefix(t, b);
    LastInSuffix(t, b + |u|);
    assert u == t[0..|t|];
    assert t[0..|t|] == t;
  }

  /** A brace-delimited text without backticks extracts to itself. */
  lemma CleanJsonSpanFixed(t: string)
    requires '`' !in t && |t| >= 2 && t[0] == '{' && t[|t| - 1] == '}'
    ensures CleanJsonSpan(t) == Ok(t)
  {
    StripFencesNoop(t);
    BraceSpanWhole(t);
  }

  /** The span is a fixed point: extracting again from an extracted span
      without backticks returns it unchanged. */
  lemma CleanJsonSpanIdempotent(raw: string)
    requires CleanJsonSpan(raw).Ok?
    requires '`' !in CleanJsonSpan(raw).value
    ensures CleanJsonSpan(CleanJsonSpan(raw).value) == CleanJsonSpan(raw)
  {
    ExtractSpanIdempotent(StripFences(raw));
  }

  lemma ExtractSpanIdempotent(s: string)
    requires ExtractSpan(s).Ok? && '`' !in ExtractSpan(s).value
    ensures CleanJsonSpan(ExtractSpan(s).value) == ExtractSpan(s)
  {
    CleanJsonSpanFixed(ExtractSpan(s).value);
  }

  // ---------------------------------------------------------------------
  // Ranking places for visit
  // ---------------------------------------------------------------------

  /** `[str(i).strip().lower() for i in user_interests if str(i).strip()]`. */
  function InterestTokens(interests: seq<string>): (r: seq<string>)
    ensures |r| <= |interests|
    ensures forall k :: 0 <= k < |r| ==> r[k] != [] && IsLowered(r[k])
  {
    if interests == [] then []
    else
      var rest := InterestTokens(interests[..|interests| - 1]);
      var t := Strip(interests[|interests| - 1]);
      if t == [] then rest
      else
        LowerIdempotent(t);
        LowerOfLowered(Lower(t));
        rest + [Lower(t)]
  }

  /** The number of tokens (with repetition) occurring in `text`. */
  function Hits(tokens: seq<string>, text: string): (r: nat)
    ensures r <= |tokens|
  {
    if tokens == [] then 0
    else Hits(tokens[..|tokens| - 1], text) + (if Contains(text, tokens[|tokens| - 1]) then 1 else 0)
  }

  datatype RankedPlace = RankedPlace(name: string, category: string, rating: real, score: real)

  /** The entry for one place: rating defaults to 4.0 and every interest
      token found in "name category" (lowered) adds 8 points to
      `rating * 20`. */
  function RankEntry(p: RawPlace, tokens: seq<string>): RankedPlace {
    var name := Strip(p.name);
    var category := Strip(p.category);
    var rating := p.rating.GetOr(4.0);
    RankedPlace(name, category, rating, rating * 20.0 + 8.0 * Hits(tokens, Lower(name + " " + category)) as real)
  }

  /** The skipping test of the ranking loop: the stripped name is not blank. */
  predicate HasName(p: RawPlace) {
    Strip(p.name) != []
  }

  /** The scoring of one place for the given interest tokens. */
  function Scorer(tokens: seq<string>): RawPlace -> RankedPlace {
    p => RankEntry(p, tokens)
  }

  /** The entries `ranked` holds before sorting: one per place with a
      non-blank name, in input order. */
  function RankEntries(places: seq<RawPlace>, tokens: seq<string>): seq<RankedPlace> {
    Map(Filter(places, HasName), Scorer(tokens))
  }

  /** An entry comes from a place with a non-blank name, and every such
      place has its entry. */
  lemma RankEntriesMembers(places: seq<RawPlace>, tokens: seq<string>, p: RawPlace)
    ensures p in places && HasName(p) ==> RankEntry(p, tokens) in RankEntries(places, tokens)
    ensures forall e :: e in RankEntries(places, tokens) ==>
      exists q :: q in places && HasName(q) && e == RankEntry(q, tokens)
  {
    var named := Filter(places, HasName);
    FilterMembers(places, HasName, p);
    if p in places && HasName(p) {
      var k :| 0 <= k < |named| && named[k] == p;
      assert RankEntries(places, tokens)[k] == RankEntry(p, tokens);
    }
    forall e | e in RankEntries(places, tokens)
      ensures exists q :: q in places && HasName(q) && e == RankEntry(q, tokens)
    {
      var k :| 0 <= k < |named| && RankEntries(places, tokens)[k] == e;
      FilterMembers(places, HasName, named[k]);
    }
  }

  function RankKey(e: RankedPlace): Key {
    Key(e.score, e.rating)
  }

  function Min(a: int, b: int): int { if a <= b then a else b }

  /** The ranking `rank_places_for_visit` builds: the entries sorted by
      (score, rating), largest first, ties in input order. */
  function Ranking(places: seq<RawPlace>, tokens: seq<string>): seq<RankedPlace> {
    SortDesc(RankEntries(places, tokens), RankKey)
  }

  /** `rank_places_for_visit`: one entry per place with a non-blank name,
      ranked; the mandatory list is the first `max(topN, 0)` entries. */
  method RankPlacesForVisit(places: seq<RawPlace>, interests: seq<string>, topN: int)
    returns (ranked: seq<RankedPlace>, mandatory: seq<RankedPlace>)
    ensures ranked == Ranking(places, InterestTokens(interests))
    ensures topN <= 0 ==> mandatory == []
    ensures topN >= 0 ==> mandatory == ranked[..Min(topN, |ranked|)]
  {
    var entries := ScoreNamedPlaces(places, InterestTokens(interests));
    ranked := SortDesc(entries, RankKey);
    var n := if topN > 0 then topN else 0;
    mandatory := ranked[..Min(n, |ranked|)];
  }

  /** The scoring loop of `rank_places_for_visit`. */
  method ScoreNamedPlaces(places: seq<RawPlace>, tokens: seq<string>) returns (entries: seq<RankedPlace>)
    ensures entries == RankEntries(places, tokens)
  {
    entries := FilterMapLoop(places, HasName, Scorer(tokens));
  }

  /** The ranking is a permutation of the entries, sorted largest first,
      and entries with equal keys keep their input order. */
  lemma RankingSorted(places: seq<RawPlace>, tokens: seq<string>)
    ensures multiset(Ranking(places, tokens)) == multiset(RankEntries(places, tokens))
    ensures SortedDesc(Ranking(places, tokens), RankKey)
    ensures forall k :: WithKey(Ranking(places, tokens), RankKey, k) == WithKey(RankEntries(places, tokens), RankKey, k)
  {
    var entries := RankEntries(places, tokens);
    SortDescSorted(entries, RankKey);
    forall k
      ensures WithKey(SortDesc(entries, RankKey), RankKey, k) == WithKey(entries, RankKey, k)
    {
      SortDescStable(entries, RankKey, k);
    }
  }

  /** A place without a usable rating is ranked as if rated 4.0. */
  lemma MissingRatingDefaults(p: RawPlace, tokens: seq<string>)
    requires p.rating.None?
    ensures RankEntry(p, tokens).rating == 4.0
    ensures 80.0 <= RankEntry(p, tokens).score <= 80.0 + 8.0 * |tokens| as real
  {
    var e := RankEntry(p, tokens);
    var h := Hits(tokens, Lower(e.name + " " + e.category));
    assert e.score == 80.0 + 8.0 * h as real;
    assert h as real <= |tokens| as real;
  }

  /** Matching an extra interest can only raise a place's score. */
  lemma {:induction false} HitsMonotone(tokens: seq<string>, more: seq<string>, text: string)
    ensures Hits(tokens + more, text) >= Hits(tokens, text)
    decreases |more|
  {
    if more != [] {
      var all := tokens + more;
      assert all[..|all| - 1] == tokens + more[..|more| - 1];
      HitsMonotone(tokens, more[..|more| - 1], text);
      assert Hits(all, text) >= Hits(all[..|all| - 1], text);
    } else {
      assert tokens + more == tokens;
    }
  }

  // ---------------------------------------------------------------------
  // First-wins merge of discovered places
  // ---------------------------------------------------------------------

  /** The merged record: the stripped name, numbers for the numeric fields
      (rating and ticket price default to 0.0), the rest copied. */
  function NormalizePlace(p: RawPlace): RawPlace {
    p.(name := Strip(p.name), rating := Some(p.rating.GetOr(0.0)), ticketPrice := Some(p.ticketPrice.GetOr(0.0)))
  }

  /** The de-duplication key of the merge: the canonical name. */
  function CanonOf(p: RawPlace): string {
    Canonical(Strip(p.name))
  }

  /** The merge is stated for any key that normalising a record keeps;
      the canonical name is one (`CanonOfStable`). */
  ghost predicate KeyStable(key: RawPlace -> string) {
    forall p :: key(NormalizePlace(p)) == key(p)
  }

  lemma CanonOfStable()
    ensures KeyStable(CanonOf)
  {
    forall p ensures CanonOf(NormalizePlace(p)) == CanonOf(p) {
      TrimIdempotent(p.name, IsPySpace);
    }
  }

  /** An entry the merge may keep: a non-blank key and numeric coordinates. */
  predicate Mergeable(p: RawPlace, key: RawPlace -> string) {
    key(p) != [] && HasCoords(p)
  }

  /** The loop state of the merge: the merged records and the
      `seen_names` set of their keys. */
  datatype MergeState = MergeState(merged: seq<RawPlace>, seen: set<string>)

  /** One loop iteration: keep `p`, normalised, when it is mergeable and its
      key has not been seen. */
  function MergeStep(st: MergeState, p: RawPlace, key: RawPlace -> string): MergeState {
    if !Mergeable(p, key) || key(p) in st.seen then st
    else MergeState(st.merged + [NormalizePlace(p)], st.seen + {key(p)})
  }

  /** The state after the loop has visited `ps` in order. */
  function MergeRun(ps: seq<RawPlace>, key: RawPlace -> string): MergeState {
    if ps == [] then MergeState([], {})
    else MergeStep(MergeRun(ps[..|ps| - 1], key), ps[|ps| - 1], key)
  }

  /** What the merge produces from the entries in order. */
  function Merge(ps: seq<RawPlace>, key: RawPlace -> string): seq<RawPlace> {
    MergeRun(ps, key).merged
  }

  lemma MergeRunAppend(ps: seq<RawPlace>, p: RawPlace, key: RawPlace -> string)
    ensures MergeRun(ps + [p], key) == MergeStep(MergeRun(ps, key), p, key)
  {
    assert (ps + [p])[..|ps|] == ps;
  }

  /** Every merged record's key is in `seen_names`. */
  lemma {:induction false} MergeRunSeenComplete(ps: seq<RawPlace>, key: RawPlace -> string, k: nat)
    requires KeyStable(key)
    requires k < |Merge(ps, key)|
    ensures key(Merge(ps, key)[k]) in MergeRun(ps, key).seen
    decreases |ps|
  {
    var pre := ps[..|ps| - 1];
    if k < |Merge(pre, key)| {
      MergeRunSeenComplete(pre, key, k);
    }
  }

  /** A key no merged record carries is not in `seen_names`. */
  lemma {:induction false} MergeRunSeenOnly(ps: seq<RawPlace>, key: RawPlace -> string, c: string)
    requires KeyStable(key)
    requires forall k :: 0 <= k < |Merge(ps, key)| ==> key(Merge(ps, key)[k]) != c
    ensures c !in MergeRun(ps, key).seen
    decreases |ps|
  {
    if ps != [] {
      var pre, p := ps[..|ps| - 1], ps[|ps| - 1];
      var m := Merge(pre, key);
      assert forall k :: 0 <= k < |m| ==> Merge(ps, key)[k] == m[k];
      MergeRunSeenOnly(pre, key, c);
      if Merge(ps, key) != m {
        assert key(Merge(ps, key)[|m|]) == key(p);
      }
    }
  }

  /** `_normalize_discovered_places`: seed places, then augmented ones,
      keeping the first mergeable entry per canonical name. */
  method NormalizeDiscoveredPlaces(seed: seq<RawPlace>, additional: seq<RawPlace>)
    returns (merged: seq<RawPlace>)
    ensures merged == Merge(seed + additional, CanonOf)
  {
    merged := MergeSources([seed, additional], CanonOf);
    assert [seed, additional][..2] == [seed, additional];
    assert Concat([seed, additional][..1]) == seed by {
      assert [seed, additional][..1][..0] == [];
    }
  }

  function Concat(sources: seq<seq<RawPlace>>): seq<RawPlace> {
    if sources == [] then [] else Concat(sources[..|sources| - 1]) + sources[|sources| - 1]
  }

  /** The two nested loops of `_normalize_discovered_places`, for any key
      function. */
  method MergeSources(sources: seq<seq<RawPlace>>, key: RawPlace -> string)
    returns (merged: seq<RawPlace>)
    ensures merged == Merge(Concat(sources), key)
  {
    merged := [];
    var seen: set<string> := {};
    var s := 0;
    while s < |sources|
      invariant 0 <= s <= |sources|
      invariant MergeState(merged, seen) == MergeRun(Concat(sources[..s]), key)
    {
      assert Concat(sources[..s + 1]) == Concat(sources[..s]) + sources[s] by {
        assert sources[..s + 1][..s] == sources[..s];
      }
      merged, seen := MergeSource(merged, seen, sources[s], key, Concat(sources[..s]));
      s := s + 1;
    }
    assert sources[..|sources|] == sources;
  }

  /** The inner loop: one source's entries in order. */
  method MergeSource(merged0: seq<RawPlace>, seen0: set<string>, source: seq<RawPlace>,
                     key: RawPlace -> string, ghost done: seq<RawPlace>)
    returns (merged: seq<RawPlace>, seen: set<string>)
    requires MergeState(merged0, seen0) == MergeRun(done, key)
    ensures MergeState(merged, seen) == MergeRun(done + source, key)
  {
    merged, seen := merged0, seen0;
    var i := 0;
    assert done + source[..0] == done;
    while i < |source|
      invariant 0 <= i <= |source|
      invariant MergeState(merged, seen) == MergeRun(done + source[..i], key)
    {
      var place := source[i];
      var k := key(place);
      MergeRunAppend(done + source[..i], place, key);
      PrefixStep(done, source, i);
      if k != [] && k !in seen && HasCoords(place) {
        merged := merged + [NormalizePlace(place)];
        seen := seen + {k};
      }
      i := i + 1;
    }
    assert source[..|source|] == source;
  }

  /** Merged entries are mergeable and their keys are pairwise distinct. */
  lemma {:induction false} MergeDistinct(ps: seq<RawPlace>, key: RawPlace -> string)
    requires KeyStable(key)
    ensures forall k :: 0 <= k < |Merge(ps, key)| ==> Mergeable(Merge(ps, key)[k], key)
    ensures forall i, j :: 0 <= i < j < |Merge(ps, key)| ==> key(Merge(ps, key)[i]) != key(Merge(ps, key)[j])
    decreases |ps|
  {
    if ps != [] {
      var pre, p := ps[..|ps| - 1], ps[|ps| - 1];
      MergeDistinct(pre, key);
      var m := Merge(pre, key);
      if Merge(ps, key) != m {
        assert Mergeable(p, key) && Merge(ps, key) == m + [NormalizePlace(p)];
        forall i | 0 <= i < |m| ensures key(m[i]) != key(NormalizePlace(p)) {
          MergeRunSeenComplete(pre, key, i);
        }
        KeysDistinctSnoc(m, NormalizePlace(p), key);
      }
    }
  }

  lemma KeysDistinctSnoc(m: seq<RawPlace>, x: RawPlace, key: RawPlace -> string)
    requires forall i, j :: 0 <= i < j < |m| ==> key(m[i]) != key(m[j])
    requires forall i :: 0 <= i < |m| ==> key(m[i]) != key(x)
    ensures forall i, j :: 0 <= i < j < |m + [x]| ==> key((m + [x])[i]) != key((m + [x])[j])
  {
  }

  /** Merging more entries only appends: the seed places' merge is a prefix
      of the merge of seed and augmented places. */
  lemma {:induction false} MergePrefix(a: seq<RawPlace>, b: seq<RawPlace>, key: RawPlace -> string)
    ensures |Merge(a, key)| <= |Merge(a + b, key)| && Merge(a + b, key)[..|Merge(a, key)|] == Merge(a, key)
    decreases |b|
  {
    if b == [] {
      assert a + b == a;
    } else {
      var pre := a + b[..|b| - 1];
      assert a + b == pre + [b[|b| - 1]];
      MergePrefix(a, b[..|b| - 1], key);
      MergeRunAppend(pre, b[|b| - 1], key);
    }
  }

  /** An entry without numeric coordinates is skipped without being
      recorded, so it does not block a later entry with the same name. */
  lemma {:induction false} UnlocatedEntryIgnored(a: seq<RawPlace>, p: RawPlace, b: seq<RawPlace>, key: RawPlace -> string)
    requires !HasCoords(p)
    ensures MergeRun(a + [p] + b, key) == MergeRun(a + b, key)
    decreases |b|
  {
    if b == [] {
      assert a + [p] + b == a + [p];
      assert a + b == a;
      MergeRunAppend(a, p, key);
    } else {
      var x := b[|b| - 1];
      var b' := b[..|b| - 1];
      assert a + [p] + b == (a + [p] + b') + [x];
      assert a + b == (a + b') + [x];
      UnlocatedEntryIgnored(a, p, b', key);
      MergeRunAppend(a + [p] + b', x, key);
      MergeRunAppend(a + b', x, key);
    }
  }

  /** Every merged record is the normalised form of a mergeable input entry. */
  lemma {:induction false} MergeOrigin(ps: seq<RawPlace>, key: RawPlace -> string, k: nat) returns (j: nat)
    requires k < |Merge(ps, key)|
    ensures j < |ps| && Mergeable(ps[j], key) && Merge(ps, key)[k] == NormalizePlace(ps[j])
    decreases |ps|
  {
    var pre := ps[..|ps| - 1];
    MergeLastStep(ps, key, k);
    if k < |Merge(pre, key)| {
      j := MergeOrigin(pre, key, k);
      assert ps[j] == pre[j];
    } else {
      j := |ps| - 1;
    }
  }

  /** The merge of `ps` is the merge of all but its last entry, followed by
      that entry when it was kept. */
  lemma MergeLastStep(ps: seq<RawPlace>, key: RawPlace -> string, k: nat)
    requires k < |Merge(ps, key)|
    ensures ps != []
    ensures k < |Merge(ps[..|ps| - 1], key)| ==> Merge(ps, key)[k] == Merge(ps[..|ps| - 1], key)[k]
    ensures k >= |Merge(ps[..|ps| - 1], key)| ==>
      Mergeable(ps[|ps| - 1], key) && Merge(ps, key)[k] == NormalizePlace(ps[|ps| - 1])
  {
  }

  /** An entry whose key no earlier mergeable entry has is appended. */
  lemma LastKept(pre: seq<RawPlace>, p: RawPlace, key: RawPlace -> string)
    requires KeyStable(key)
    requires Mergeable(p, key)
    requires forall j :: 0 <= j < |pre| && Mergeable(pre[j], key) ==> key(pre[j]) != key(p)
    ensures Merge(pre + [p], key) == Merge(pre, key) + [NormalizePlace(p)]
  {
    var m := Merge(pre, key);
    forall k | 0 <= k < |m|
      ensures key(m[k]) != key(p)
    {
      var j := MergeOrigin(pre, key, k);
    }
    MergeRunSeenOnly(pre, key, key(p));
    MergeRunAppend(pre, p, key);
  }

  /** The first mergeable entry with a given key is kept. */
  lemma {:induction false} MergeKeepsFirst(ps: seq<RawPlace>, key: RawPlace -> string, i: nat)
    requires KeyStable(key)
    requires i < |ps| && Mergeable(ps[i], key)
    requires forall j :: 0 <= j < i && Mergeable(ps[j], key) ==> key(ps[j]) != key(ps[i])
    ensures NormalizePlace(ps[i]) in Merge(ps, key)
    decreases |ps|
  {
    var pre, p := ps[..|ps| - 1], ps[|ps| - 1];
    assert ps == pre + [p];
    if i == |ps| - 1 {
      LastKept(pre, p, key);
    } else {
      MergeKeepsFirst(pre, key, i);
      MergePrefix(pre, [p], key);
      var m := Merge(pre, key);
      assert NormalizePlace(ps[i]) in Merge(ps, key)[..|m|];
    }
  }
}
