/** The planning tools: cost-string parsing, transport and budget
    estimates, keyword-based effort classification and proximity
    clustering of places (`services/tools.py`). */
module Tools {
  import opened Wrappers
  import opened Text
  import opened Sorting
  import opened Places
  import opened Seqs

  // ---------------------------------------------------------------------
  // Cost strings
  // ---------------------------------------------------------------------

  /** The longest prefix of decimal digits. */
  function DigitRun(s: string): (r: string)
    ensures |r| <= |s| && r == s[..|r|] && AllDigits(r)
    ensures |r| < |s| ==> !IsDigit(s[|r|])
  {
    if s == [] || !IsDigit(s[0]) then [] else [s[0]] + DigitRun(s[1..])
  }

  /** The numbers `re.findall(r"\d+\.\d+|\d+", s)` finds, each read with
      `float()`: a digit run, followed by a fraction when a dot and a digit
      come right after it; the scan resumes after each match. */
  function Numbers(s: string): (r: seq<real>)
    ensures forall k :: 0 <= k < |r| ==> r[k] >= 0.0
    decreases |s|
  {
    if s == [] then []
    else if !IsDigit(s[0]) then Numbers(s[1..])
    else
      var a := DigitRun(s);
      var rest := s[|a|..];
      if |rest| >= 2 && rest[0] == '.' && IsDigit(rest[1]) then
        var b := DigitRun(rest[1..]);
        [DigitsValue(a) as real + FractionValue(b)]
          + Numbers(rest[1 + |b|..])
      else
        [DigitsValue(a) as real] + Numbers(rest)
  }

  predicate NoDigit(s: string) {
    forall i :: 0 <= i < |s| ==> !IsDigit(s[i])
  }

  /** `_parse_cost`: drop `,` and `₹`, strip, take the first number, or the
      mean of the first two when the text contains a `-` (a price range). */
  function ParseCost(costText: string): (r: real)
    ensures r >= 0.0
  {
    CleanedCost(Strip(RemoveChar(RemoveChar(costText, ','), '₹')))
  }

  /** The cost read from the cleaned text. */
  function CleanedCost(cleaned: string): (r: real)
    ensures r >= 0.0
  {
    var nums := Numbers(cleaned);
    if nums == [] then 0.0
    else if '-' in cleaned && |nums| >= 2 then (nums[0] + nums[1]) / 2.0
    else nums[0]
  }

  lemma {:induction false} NumbersEmptyIff(s: string)
    ensures Numbers(s) == [] <==> NoDigit(s)
    decreases |s|
  {
    if s != [] {
      NumbersEmptyIff(s[1..]);
      if NoDigit(s[1..]) && !IsDigit(s[0]) {
        assert NoDigit(s);
      }
      if NoDigit(s) {
        assert NoDigit(s[1..]) by {
          forall i | 0 <= i < |s| - 1 ensures !IsDigit(s[1..][i]) {
            assert s[1..][i] == s[i + 1];
          }
        }
      }
    }
  }

  lemma {:induction false} DigitRunOfDigits(s: string, tail: string)
    requires AllDigits(s)
    requires tail == [] || !IsDigit(tail[0])
    ensures DigitRun(s + tail) == s
    decreases |s|
  {
    if s == [] {
      assert s + tail == tail;
    } else {
      assert (s + tail)[1..] == s[1..] + tail;
      DigitRunOfDigits(s[1..], tail);
      assert s == [s[0]] + s[1..];
    }
  }

  /** A decimal number followed by no dot reads back as itself. */
  lemma NumbersOfNat(n: nat, tail: string)
    requires tail == [] || (!IsDigit(tail[0]) && tail[0] != '.')
    ensures Numbers(NatToString(n) + tail) == [n as real] + Numbers(tail)
  {
    var d := NatToString(n);
    DigitRunOfDigits(d, tail);
    assert (d + tail)[|d|..] == tail;
  }

  lemma {:induction false} StripNoSpace(s: string)
    requires forall i :: 0 <= i < |s| ==> !IsPySpace(s[i])
    ensures Strip(s) == s
  {
    TrimNoop(s, IsPySpace);
  }

  /** Text made only of digits and dashes passes the cleaning step unchanged. */
  lemma CleanUnchanged(s: string)
    requires forall i :: 0 <= i < |s| ==> IsDigit(s[i]) || s[i] == '-'
    ensures Strip(RemoveChar(RemoveChar(s, ','), '₹')) == s
  {
    forall i | 0 <= i < |s|
      ensures !IsPySpace(s[i]) && s[i] != ',' && s[i] != '₹'
    {
      DigitOrDashIsPlain(s[i]);
    }
    assert RemoveChar(RemoveChar(s, ','), '₹') == s by {
      RemoveCharAbsent(s, ',');
      RemoveCharAbsent(s, '₹');
    }
    StripNoSpace(s);
  }

  lemma DigitOrDashIsPlain(c: char)
    requires IsDigit(c) || c == '-'
    ensures !IsPySpace(c) && c != ',' && c != '₹'
  {
  }

  /** A plain rupee amount such as `"1500"` parses to its value. */
  lemma ParseCostOfNat(n: nat)
    ensures ParseCost(NatToString(n)) == n as real
  {
    var d := NatToString(n);
    CleanUnchanged(d);
    NumbersOfNat(n, []);
    assert d + [] == d;
    assert Numbers(d) == [n as real];
  }

  lemma NumbersSkip(c: char, t: string)
    requires !IsDigit(c)
    ensures Numbers([c] + t) == Numbers(t)
  {
    assert ([c] + t)[1..] == t;
  }

  lemma NumbersOfRange(a: nat, b: nat)
    ensures Numbers(NatToString(a) + ("-" + NatToString(b))) == [a as real, b as real]
  {
    var db := NatToString(b);
    NumbersOfNat(a, "-" + db);
    NumbersSkip('-', db);
    NumbersOfNat(b, []);
    assert db + [] == db;
  }

  lemma RangeChars(da: string, db: string)
    requires AllDigits(da) && AllDigits(db)
    ensures forall i :: 0 <= i < |da + "-" + db| ==> IsDigit((da + "-" + db)[i]) || (da + "-" + db)[i] == '-'
  {
    var s := da + "-" + db;
    forall i | 0 <= i < |s| ensures IsDigit(s[i]) || s[i] == '-' {
      if i < |da| {
        assert s[i] == da[i];
      } else if i > |da| {
        assert s[i] == db[i - |da| - 1];
      }
    }
  }

  lemma ParseCostOfPair(s: string, x: real, y: real)
    requires forall i :: 0 <= i < |s| ==> IsDigit(s[i]) || s[i] == '-'
    requires '-' in s && Numbers(s) == [x, y]
    ensures ParseCost(s) == (x + y) / 2.0
  {
    CleanUnchanged(s);
    CleanedCostOfPair(s, x, y);
  }

  lemma CleanedCostOfPair(s: string, x: real, y: real)
    requires '-' in s && Numbers(s) == [x, y]
    ensures CleanedCost(s) == (x + y) / 2.0
  {
  }

  /** A price range `"a-b"` parses to the mean of its ends. */
  lemma ParseCostOfRange(a: nat, b: nat)
    ensures ParseCost(NatToString(a) + "-" + NatToString(b)) == (a as real + b as real) / 2.0
  {
    var da, db := NatToString(a), NatToString(b);
    var s := da + "-" + db;
    RangeChars(da, db);
    assert s == da + ("-" + db);
    NumbersOfRange(a, b);
    assert s[|da|] == '-';
    ParseCostOfPair(s, a as real, b as real);
  }

  lemma {:induction false} RemoveCharAbsent(s: string, c: char)
    requires c !in s
    ensures RemoveChar(s, c) == s
    decreases |s|
  {
    if s != [] {
      RemoveCharAbsent(s[1..], c);
      assert s == [s[0]] + s[1..];
    }
  }

  /** Text without any digit costs nothing. */
  lemma ParseCostNoDigits(costText: string)
    requires NoDigit(costText)
    ensures ParseCost(costText) == 0.0
  {
    var c1 := RemoveChar(costText, ',');
    var c2 := RemoveChar(c1, '₹');
    assert NoDigit(c1) by {
      forall i | 0 <= i < |c1| ensures !IsDigit(c1[i]) {
        assert c1[i] in costText;
      }
    }
    assert NoDigit(c2) by {
      forall i | 0 <= i < |c2| ensures !IsDigit(c2[i]) {
        assert c2[i] in c1;
      }
    }
    var cleaned := Strip(c2);
    var k :| SliceAt(c2, k, cleaned);
    assert NoDigit(cleaned) by {
      forall i | 0 <= i < |cleaned| ensures !IsDigit(cleaned[i]) {
        assert cleaned[i] == c2[k + i];
      }
    }
    NumbersEmptyIff(cleaned);
  }

  // ---------------------------------------------------------------------
  // Transport and budget
  // ---------------------------------------------------------------------

  const DefaultRoundTripCost := 3000
  const MumbaiPuneRoundTrip := 800
  const LocalPerDayCost := 600

  datatype TransportEstimate = TransportEstimate(
    intercityRoundTrip: int,
    localDailyAvg: int,
    localTotal: int,
    grandTotal: int,
    notes: string)

  /** `estimate_transport_costs`: the Mumbai to Pune fare when the cities
      match case-insensitively, the default fare otherwise, plus a fixed
      local cost per day. */
  function EstimateTransportCosts(home: string, dest: string, numDays: int): (r: TransportEstimate)
    ensures r.intercityRoundTrip == (if Lower(home) == "mumbai" && Lower(dest) == "pune"
                                     then MumbaiPuneRoundTrip else DefaultRoundTripCost)
    ensures r.localDailyAvg == LocalPerDayCost
    ensures r.grandTotal == r.intercityRoundTrip + r.localDailyAvg * numDays
    ensures r.localTotal == r.grandTotal - r.intercityRoundTrip
  {
    var roundTrip := if Lower(home) == "mumbai" && Lower(dest) == "pune"
                     then MumbaiPuneRoundTrip else DefaultRoundTripCost;
    var localTotal := LocalPerDayCost * numDays;
    TransportEstimate(roundTrip, LocalPerDayCost, localTotal, roundTrip + localTotal,
      "Assumes mid-range travel options (AC train/bus, app-based cabs/autos). Costs can vary.")
  }

  /** The estimate does not depend on how the city names are capitalised. */
  lemma TransportIgnoresCase(home: string, dest: string, numDays: int)
    ensures EstimateTransportCosts(Lower(home), Lower(dest), numDays)
         == EstimateTransportCosts(home, dest, numDays)
  {
    LowerIdempotent(home);
    LowerIdempotent(dest);
  }

  /** Every extra day adds exactly the local daily cost. */
  lemma TransportPerDay(home: string, dest: string, numDays: int)
    ensures EstimateTransportCosts(home, dest, numDays + 1).grandTotal
         == EstimateTransportCosts(home, dest, numDays).grandTotal + LocalPerDayCost
  {
  }

  /** Each place's parsed `estimated_cost` (a missing value reads as `"0"`). */
  function CostsOf(costs: seq<string>): (r: seq<real>)
    ensures |r| == |costs|
    ensures forall k :: 0 <= k < |costs| ==> r[k] == ParseCost(costs[k]) && r[k] >= 0.0
  {
    seq(|costs|, k requires 0 <= k < |costs| => ParseCost(costs[k]))
  }

  datatype BudgetReport = BudgetReport(totalEstimatedCost: real, withinBudget: bool)

  /** `calculate_budget`: the total of the parsed costs and whether it is
      within the user's budget. */
  function CalculateBudget(costs: seq<string>, userBudget: real): (r: BudgetReport)
    ensures r.totalEstimatedCost >= 0.0
    ensures r.withinBudget <==> r.totalEstimatedCost <= userBudget
  {
    var total := Total(CostsOf(costs));
    TotalNonNegative(CostsOf(costs));
    BudgetReport(total, total <= userBudget)
  }

  /** Adding places never lowers the total, so a plan over budget stays over
      budget when places are added. */
  lemma BudgetMonotone(a: seq<string>, b: seq<string>, userBudget: real)
    ensures CalculateBudget(a, userBudget).totalEstimatedCost
         <= CalculateBudget(a + b, userBudget).totalEstimatedCost
    ensures CalculateBudget(a + b, userBudget).withinBudget ==> CalculateBudget(a, userBudget).withinBudget
  {
    assert CostsOf(a + b) == CostsOf(a) + CostsOf(b);
    TotalAppend(CostsOf(a), CostsOf(b));
    TotalNonNegative(CostsOf(b));
  }

  // ---------------------------------------------------------------------
  // Effort classification
  // ---------------------------------------------------------------------

  /** The keyword table, in the dict's insertion order; the first tier with
      a matching keyword wins. */
  const EffortRules: seq<(string, seq<string>)> := [
    ("high_effort_outskirts", ["fort", "sinhagad", "hill", "parvati", "trek"]),
    ("urban_walkable", ["temple", "ganapati", "devi", "chatushrungi", "dagadusheth", "market", "peth", "baug"]),
    ("semi_urban", ["museum", "kelkar", "zoo", "garden"]),
    ("modern_outskirts", ["marketcity", "phoenix"])
  ]

  const DefaultEffort := "urban_walkable"

  /** Some keyword of tier `i` occurs in the lowered name or category. */
  predicate TierMatches(i: nat, name: string, category: string)
    requires i < |EffortRules|
  {
    AnyContains(Lower(name), EffortRules[i].1) || AnyContains(Lower(category), EffortRules[i].1)
  }

  /** The first tier at or after `from` that matches. */
  function FirstTier(from: nat, name: string, category: string): (r: Option<nat>)
    requires from <= |EffortRules|
    ensures r.Some? ==> from <= r.value < |EffortRules| && TierMatches(r.value, name, category)
    ensures r.Some? ==> forall j :: from <= j < r.value ==> !TierMatches(j, name, category)
    ensures r.None? ==> forall j :: from <= j < |EffortRules| ==> !TierMatches(j, name, category)
    decreases |EffortRules| - from
  {
    if from == |EffortRules| then None
    else if TierMatches(from, name, category) then Some(from)
    else FirstTier(from + 1, name, category)
  }

  /** `classify_place_type`. */
  function ClassifyPlaceType(name: string, category: string): (r: string)
    ensures r in {"high_effort_outskirts", "urban_walkable", "semi_urban", "modern_outskirts"}
  {
    match FirstTier(0, name, category)
    case Some(i) => EffortRules[i].0
    case None => DefaultEffort
  }

  lemma ClassifyIsFirstMatch(name: string, category: string, i: nat)
    requires i < |EffortRules| && TierMatches(i, name, category)
    requires forall j :: 0 <= j < i ==> !TierMatches(j, name, category)
    ensures ClassifyPlaceType(name, category) == EffortRules[i].0
  {
  }

  /** Nothing matches: the default tier. */
  lemma ClassifyDefault(name: string, category: string)
    requires forall j :: 0 <= j < |EffortRules| ==> !TierMatches(j, name, category)
    ensures ClassifyPlaceType(name, category) == DefaultEffort
  {
  }

  lemma ContainsPrefixKeyword(text: string, kw: string, p: nat)
    requires p <= |kw| && Contains(text, kw)
    ensures Contains(text, kw[..p])
  {
    ContainsIff(text, kw);
    var i :| OccursAt(text, kw, i);
    assert OccursAt(text, kw[..p], i);
    ContainsIff(text, kw[..p]);
  }

  /** Every text that mentions "marketcity" also mentions "market", an
      `urban_walkable` keyword. */
  lemma MarketcityMentionsMarket(text: string)
    requires Contains(text, "marketcity")
    ensures AnyContains(text, EffortRules[1].1)
  {
    ContainsPrefixKeyword(text, "marketcity", 6);
    assert "marketcity"[..6] == "market" == EffortRules[1].1[5];
  }

  /** So a place mentioning "marketcity" is `urban_walkable`, unless a
      `high_effort_outskirts` keyword also occurs. */
  lemma MarketcityIsUrbanWalkable(name: string, category: string)
    requires Contains(Lower(name), "marketcity")
    requires !TierMatches(0, name, category)
    ensures ClassifyPlaceType(name, category) == "urban_walkable"
  {
    MarketcityMentionsMarket(Lower(name));
    ClassifyIsFirstMatch(name, category, 1);
  }

  /** Because "marketcity" is shadowed by "market", the last tier is reached
      only through "phoenix". */
  lemma ModernOutskirtsOnlyViaPhoenix(name: string, category: string)
    requires ClassifyPlaceType(name, category) == "modern_outskirts"
    ensures Contains(Lower(name), "phoenix") || Contains(Lower(category), "phoenix")
  {
    var t := FirstTier(0, name, category);
    assert t == Some(3);
    assert !TierMatches(1, name, category);
    if Contains(Lower(name), "marketcity") {
      MarketcityMentionsMarket(Lower(name));
      assert false;
    }
    if Contains(Lower(category), "marketcity") {
      MarketcityMentionsMarket(Lower(category));
      assert false;
    }
    assert EffortRules[3].1 == ["marketcity", "phoenix"];
  }

  // ---------------------------------------------------------------------
  // Proximity clustering
  // ---------------------------------------------------------------------

  /** The places with numeric coordinates, in order. */
  function ValidPlaces(places: seq<RawPlace>): (r: seq<RawPlace>)
    ensures forall k :: 0 <= k < |r| ==> HasCoords(r[k])
    ensures forall p :: p in r <==> p in places && HasCoords(p)
    ensures |r| <= |places|
  {
    if places == [] then []
    else (if HasCoords(places[0]) then [places[0]] else []) + ValidPlaces(places[1..])
  }

  function PointsOf(valid: seq<RawPlace>): (pts: seq<Point>)
    requires forall k :: 0 <= k < |valid| ==> HasCoords(valid[k])
    ensures |pts| == |valid|
    ensures forall k :: 0 <= k < |valid| ==> pts[k] == PointOf(valid[k])
  {
    if valid == [] then [] else [PointOf(valid[0])] + PointsOf(valid[1..])
  }

  predicate Near(pts: seq<Point>, u: int, v: int, maxDistance: real, dist: (Point, Point) -> real) {
    0 <= u < |pts| && 0 <= v < |pts| && dist(pts[u], pts[v]) <= maxDistance
  }

  /** A cluster holds every place within reach of each of its members. */
  ghost predicate ClosedUnder(c: seq<nat>, pts: seq<Point>, maxDistance: real, dist: (Point, Point) -> real) {
    forall u, v :: u in c && Near(pts, u, v, maxDistance, dist) ==> v in c
  }

  function Flatten(cs: seq<seq<nat>>): seq<nat> {
    if cs == [] then [] else Flatten(cs[..|cs| - 1]) + cs[|cs| - 1]
  }

  lemma {:induction false} FlattenAppend(a: seq<seq<nat>>, b: seq<seq<nat>>)
    ensures Flatten(a + b) == Flatten(a) + Flatten(b)
    decreases |b|
  {
    if b == [] {
      assert a + b == a;
    } else {
      var b', x := b[..|b| - 1], b[|b| - 1];
      FlattenAppend(a, b');
      assert (a + b)[..|a + b| - 1] == a + b' && (a + b)[|a + b| - 1] == x;
      assert Flatten(a + b) == Flatten(a + b') + x;
      assert Flatten(b) == Flatten(b') + x;
      ConcatAssoc(Flatten(a), Flatten(b'), x);
    }
  }

  lemma FlattenOne(c: seq<nat>)
    ensures Flatten([c]) == c
  {
    var one: seq<seq<nat>> := [c];
    assert one[..0] == [];
  }

  lemma {:induction false} FlattenMember(cs: seq<seq<nat>>, v: nat)
    requires v in Flatten(cs)
    ensures exists k :: 0 <= k < |cs| && v in cs[k]
    decreases |cs|
  {
    if v !in cs[|cs| - 1] {
      FlattenMember(cs[..|cs| - 1], v);
      var k :| 0 <= k < |cs| - 1 && v in cs[..|cs| - 1][k];
      assert v in cs[k];
    }
  }

  lemma MultisetRemoveAt(b: seq<seq<nat>>, i: nat)
    requires i < |b|
    ensures multiset(b[..i] + b[i + 1..]) == multiset(b) - multiset{b[i]}
  {
    SplitAround(b, i);
    MultisetMiddle(b[..i], [b[i]], b[i + 1..]);
  }

  lemma FlattenRemoveAt(b: seq<seq<nat>>, i: nat)
    requires i < |b|
    ensures multiset(Flatten(b)) == multiset(Flatten(b[..i] + b[i + 1..])) + multiset(b[i])
  {
    var b1, b2 := b[..i], b[i + 1..];
    SplitAround(b, i);
    FlattenAppend(b1, [b[i]] + b2);
    FlattenAppend([b[i]], b2);
    FlattenOne(b[i]);
    FlattenAppend(b1, b2);
    MultisetMiddle(Flatten(b1), b[i], Flatten(b2));
  }

  /** Flattening a permutation of the clusters gives a permutation of the elements. */
  lemma {:induction false} FlattenPermutation(a: seq<seq<nat>>, b: seq<seq<nat>>)
    requires multiset(a) == multiset(b)
    ensures multiset(Flatten(a)) == multiset(Flatten(b))
    decreases |a|
  {
    if a != [] {
      var x := a[|a| - 1];
      var a' := a[..|a| - 1];
      assert a == a' + [x];
      assert multiset(a') == multiset(a) - multiset{x};
      assert x in multiset(b);
      var i :| 0 <= i < |b| && b[i] == x;
      MultisetRemoveAt(b, i);
      FlattenPermutation(a', b[..i] + b[i + 1..]);
      FlattenRemoveAt(b, i);
      FlattenAppend(a', [x]);
      FlattenOne(x);
    } else {
      assert |b| == |multiset(b)| == 0;
    }
  }

  /** Every index below `n` occurs exactly once, and no other index occurs. */
  ghost predicate PartitionOf(cs: seq<seq<nat>>, n: nat) {
    forall v: nat :: multiset(Flatten(cs))[v] == (if v < n then 1 else 0)
  }

  /** The inner `for j` loop: push, in index order, every point within
      reach of `x` that has not been visited. */
  method PushNeighbours(pts: seq<Point>, x: nat, maxDistance: real, dist: (Point, Point) -> real,
                        visited: set<nat>, stack: seq<nat>)
    returns (s: seq<nat>)
    requires x < |pts|
    ensures |s| >= |stack| && s[..|stack|] == stack
    ensures forall k :: |stack| <= k < |s| ==> s[k] !in visited && Near(pts, x, s[k], maxDistance, dist)
    ensures forall v :: v in s ==> v in stack || (v < |pts| && v !in visited)
    ensures forall v :: Near(pts, x, v, maxDistance, dist) && v !in visited ==> v in s
  {
    s := stack;
    var j := 0;
    while j < |pts|
      invariant 0 <= j <= |pts|
      invariant |s| >= |stack| && s[..|stack|] == stack
      invariant forall k :: |stack| <= k < |s| ==> s[k] !in visited && Near(pts, x, s[k], maxDistance, dist)
      invariant forall v :: v in s ==> v in stack || (v < |pts| && v !in visited)
      invariant forall v :: 0 <= v < j && Near(pts, x, v, maxDistance, dist) && v !in visited ==> v in s
    {
      if j !in visited && dist(pts[x], pts[j]) <= maxDistance {
        s := s + [j];
      }
      j := j + 1;
    }
  }

  /** Distance is symmetric and finished clusters are closed, so a point
      within reach of a finished cluster's member is itself finished. */
  lemma ReachFromDone(clusters: seq<seq<nat>>, pts: seq<Point>, maxDistance: real,
                      dist: (Point, Point) -> real, done: set<nat>, x: nat, v: nat)
    requires Symmetric(dist)
    requires forall w: nat :: multiset(Flatten(clusters))[w] == (if w in done then 1 else 0)
    requires forall k :: 0 <= k < |clusters| ==> ClosedUnder(clusters[k], pts, maxDistance, dist)
    requires v in done && Near(pts, x, v, maxDistance, dist)
    ensures x in done
  {
    assert multiset(Flatten(clusters))[v] == 1;
    FlattenMember(clusters, v);
    var k :| 0 <= k < |clusters| && v in clusters[k];
    assert dist(pts[v], pts[x]) == dist(pts[x], pts[v]);
    assert Near(pts, v, x, maxDistance, dist);
    FlattenMemberBack(clusters, k, x);
    assert multiset(Flatten(clusters))[x] >= 1;
  }

  /** Every point within reach of the cluster being built is in it or
      still waiting on the stack. */
  ghost predicate Frontier(current: seq<nat>, stack: seq<nat>, pts: seq<Point>,
                           maxDistance: real, dist: (Point, Point) -> real) {
    forall u, v :: u in current && Near(pts, u, v, maxDistance, dist) ==> v in current || v in stack
  }

  lemma FrontierPopVisited(current: seq<nat>, rest: seq<nat>, x: nat, pts: seq<Point>,
                           maxDistance: real, dist: (Point, Point) -> real)
    requires Frontier(current, rest + [x], pts, maxDistance, dist) && x in current
    ensures Frontier(current, rest, pts, maxDistance, dist)
  {
  }

  lemma FrontierVisit(current: seq<nat>, rest: seq<nat>, x: nat, s: seq<nat>, visited: set<nat>,
                      pts: seq<Point>, maxDistance: real, dist: (Point, Point) -> real)
    requires Frontier(current, rest + [x], pts, maxDistance, dist)
    requires forall v :: v in current ==> v in visited
    requires forall v :: v in rest ==> v in s
    requires forall v :: Near(pts, x, v, maxDistance, dist) && v !in visited && v != x ==> v in s
    requires forall v :: Near(pts, x, v, maxDistance, dist) && v in visited ==> v in current
    ensures Frontier(current + [x], s, pts, maxDistance, dist)
  {
  }

  lemma CountVisit(flat: seq<nat>, current: seq<nat>, visited: set<nat>, x: nat)
    requires forall v: nat :: multiset(flat + current)[v] == (if v in visited then 1 else 0)
    requires x !in visited
    ensures forall v: nat :: multiset(flat + (current + [x]))[v] == (if v in visited + {x} then 1 else 0)
  {
    assert flat + (current + [x]) == (flat + current) + [x];
  }

  /** Each member after the first is within reach of an earlier one, so the
      cluster is joined by hops of at most `maxDistance`. */
  ghost predicate Linked(c: seq<nat>, pts: seq<Point>, maxDistance: real, dist: (Point, Point) -> real) {
    forall m :: 0 < m < |c| ==> ReachedBefore(c, m, pts, maxDistance, dist)
  }

  /** Some member before position `m` is within reach of member `m`. */
  ghost predicate ReachedBefore(c: seq<nat>, m: nat, pts: seq<Point>, maxDistance: real,
                                dist: (Point, Point) -> real)
    requires m < |c|
  {
    exists l :: 0 <= l < m && Near(pts, c[l], c[m], maxDistance, dist)
  }

  /** `Linked`, with `links[m]` naming the earlier member that reaches member `m`. */
  ghost predicate LinkedBy(c: seq<nat>, links: seq<nat>, pts: seq<Point>, maxDistance: real,
                           dist: (Point, Point) -> real) {
    |links| == |c| &&
    forall m :: 0 < m < |c| ==> links[m] < m && Near(pts, c[links[m]], c[m], maxDistance, dist)
  }

  /** Every point waiting on the stack was pushed by a member of the
      cluster, the one `parents` names at its position. */
  ghost predicate AttachedBy(current: seq<nat>, stack: seq<nat>, parents: seq<nat>, pts: seq<Point>,
                             maxDistance: real, dist: (Point, Point) -> real) {
    |parents| == |stack| &&
    forall k :: 0 <= k < |stack| ==> parents[k] < |current| && Near(pts, current[parents[k]], stack[k], maxDistance, dist)
  }

  lemma LinkedByLinked(c: seq<nat>, links: seq<nat>, pts: seq<Point>, maxDistance: real,
                       dist: (Point, Point) -> real)
    requires LinkedBy(c, links, pts, maxDistance, dist)
    ensures Linked(c, pts, maxDistance, dist)
  {
    forall m | 0 < m < |c|
      ensures ReachedBefore(c, m, pts, maxDistance, dist)
    {
      var l := links[m];
      assert 0 <= l < m && Near(pts, c[l], c[m], maxDistance, dist);
    }
  }

  lemma AttachedPop(current: seq<nat>, rest: seq<nat>, x: nat, parents: seq<nat>, pts: seq<Point>,
                    maxDistance: real, dist: (Point, Point) -> real)
    requires AttachedBy(current, rest + [x], parents, pts, maxDistance, dist)
    ensures AttachedBy(current, rest, parents[..|rest|], pts, maxDistance, dist)
  {
    forall k | 0 <= k < |rest|
      ensures parents[k] < |current| && Near(pts, current[parents[k]], rest[k], maxDistance, dist)
    {
      assert (rest + [x])[k] == rest[k];
    }
  }

  /** Visiting `x`, pushed by the member `p` of the cluster (or starting
      it), keeps the cluster linked, and the neighbours pushed on top are
      attached to `x`. */
  lemma LinkVisit(current: seq<nat>, links: seq<nat>, rest: seq<nat>, parents: seq<nat>, p: nat, x: nat,
                  s: seq<nat>, pts: seq<Point>, maxDistance: real, dist: (Point, Point) -> real)
    requires LinkedBy(current, links, pts, maxDistance, dist)
    requires AttachedBy(current, rest, parents, pts, maxDistance, dist)
    requires current != [] ==> p < |current| && Near(pts, current[p], x, maxDistance, dist)
    requires |s| >= |rest| && s[..|rest|] == rest
    requires forall k :: |rest| <= k < |s| ==> Near(pts, x, s[k], maxDistance, dist)
    ensures LinkedBy(current + [x], links + [p], pts, maxDistance, dist)
    ensures AttachedBy(current + [x], s, parents + seq(|s| - |rest|, _ => |current|), pts, maxDistance, dist)
  {
    var c, ps := current + [x], parents + seq(|s| - |rest|, _ => |current|);
    forall m | 0 < m < |c|
      ensures (links + [p])[m] < m && Near(pts, c[(links + [p])[m]], c[m], maxDistance, dist)
    {
      if m < |current| {
        assert c[m] == current[m] && (links + [p])[m] == links[m] && c[links[m]] == current[links[m]];
      } else {
        assert c[m] == x && (links + [p])[m] == p && c[p] == current[p];
      }
    }
    forall k | 0 <= k < |s|
      ensures ps[k] < |c| && Near(pts, c[ps[k]], s[k], maxDistance, dist)
    {
      if k < |rest| {
        assert s[k] == rest[k] && ps[k] == parents[k] && c[parents[k]] == current[parents[k]];
      } else {
        assert ps[k] == |current| && c[|current|] == x;
      }
    }
  }

  /** The indices not yet visited. */
  ghost function Unseen(n: nat, visited: set<nat>): set<nat> {
    set v: nat | v < n && v !in visited
  }

  /** The `while stack` loop: the depth-first search from `i`, returning the
      new cluster and the grown visited set. */
  method Explore(pts: seq<Point>, maxDistance: real, dist: (Point, Point) -> real,
                 clusters: seq<seq<nat>>, done: set<nat>, i: nat)
    returns (visited: set<nat>, current: seq<nat>)
    requires Symmetric(dist)
    requires i < |pts| && i !in done
    requires forall v :: v in done ==> v < |pts|
    requires forall v: nat :: multiset(Flatten(clusters))[v] == (if v in done then 1 else 0)
    requires forall k :: 0 <= k < |clusters| ==> ClosedUnder(clusters[k], pts, maxDistance, dist)
    ensures forall v :: v in visited ==> v < |pts|
    ensures forall v :: v in visited <==> v in done || v in current
    ensures i in current
    ensures forall v: nat :: multiset(Flatten(clusters) + current)[v] == (if v in visited then 1 else 0)
    ensures ClosedUnder(current, pts, maxDistance, dist)
    ensures Linked(current, pts, maxDistance, dist)
  {
    visited := done;
    current := [];
    var stack: seq<nat> := [i];
    ghost var links: seq<nat> := [];
    ghost var parents: seq<nat> := [];
    assert Flatten(clusters) + current == Flatten(clusters);
    while stack != []
      invariant Searching(pts, maxDistance, dist, clusters, done, i, visited, current, stack, links, parents)
      decreases Unseen(|pts|, visited), |stack|
    {
      ghost var unseen := Unseen(|pts|, visited);
      ghost var height := |stack|;
      visited, current, stack, links, parents :=
        Step(pts, maxDistance, dist, clusters, done, i, visited, current, stack, links, parents);
      assert Unseen(|pts|, visited) < unseen || (Unseen(|pts|, visited) == unseen && |stack| < height);
    }
    LinkedByLinked(current, links, pts, maxDistance, dist);
  }

  /** The state of the search from `i` at the head of the `while stack` loop. */
  ghost predicate Searching(pts: seq<Point>, maxDistance: real, dist: (Point, Point) -> real,
                            clusters: seq<seq<nat>>, done: set<nat>, i: nat, visited: set<nat>,
                            current: seq<nat>, stack: seq<nat>, links: seq<nat>, parents: seq<nat>) {
    Symmetric(dist) &&
    (forall v :: v in done ==> v < |pts|) &&
    (forall v: nat :: multiset(Flatten(clusters))[v] == (if v in done then 1 else 0)) &&
    (forall k :: 0 <= k < |clusters| ==> ClosedUnder(clusters[k], pts, maxDistance, dist)) &&
    (forall v :: v in visited ==> v < |pts|) &&
    (forall v :: v in stack ==> v < |pts| && v !in done) &&
    (forall v :: v in visited <==> v in done || v in current) &&
    (forall v: nat :: multiset(Flatten(clusters) + current)[v] == (if v in visited then 1 else 0)) &&
    Frontier(current, stack, pts, maxDistance, dist) &&
    (i in current || stack == [i]) &&
    LinkedBy(current, links, pts, maxDistance, dist) &&
    (current != [] ==> AttachedBy(current, stack, parents, pts, maxDistance, dist))
  }

  /** One pass of the `while stack` loop: pop the top of the stack, and
      visit it unless it was visited already. */
  method Step(pts: seq<Point>, maxDistance: real, dist: (Point, Point) -> real,
              clusters: seq<seq<nat>>, done: set<nat>, i: nat, visited: set<nat>, current: seq<nat>,
              stack: seq<nat>, ghost links: seq<nat>, ghost parents: seq<nat>)
    returns (visited': set<nat>, current': seq<nat>, stack': seq<nat>, ghost links': seq<nat>, ghost parents': seq<nat>)
    requires stack != []
    requires Searching(pts, maxDistance, dist, clusters, done, i, visited, current, stack, links, parents)
    ensures Searching(pts, maxDistance, dist, clusters, done, i, visited', current', stack', links', parents')
    ensures Unseen(|pts|, visited') < Unseen(|pts|, visited)
            || (Unseen(|pts|, visited') == Unseen(|pts|, visited) && |stack'| < |stack|)
  {
    var x := stack[|stack| - 1];
    var rest := stack[..|stack| - 1];
    SnocSplit(stack);
    assert forall v :: v in rest ==> v in stack;
    if x in visited {
      FrontierPopVisited(current, rest, x, pts, maxDistance, dist);
      parents' := parents;
      if current != [] {
        AttachedPop(current, rest, x, parents, pts, maxDistance, dist);
        parents' := parents[..|rest|];
      }
      visited', current', stack', links' := visited, current, rest, links;
      return;
    }
    visited', current', stack', links', parents' :=
      Visit(pts, maxDistance, dist, clusters, done, visited, current, rest, x, links, parents);
    assert x in Unseen(|pts|, visited) && Unseen(|pts|, visited') == Unseen(|pts|, visited) - {x};
  }

  /** One pass of the `while stack` loop for an unvisited `x`: mark it,
      append it to the cluster and push its unvisited neighbours. */
  method Visit(pts: seq<Point>, maxDistance: real, dist: (Point, Point) -> real,
               clusters: seq<seq<nat>>, done: set<nat>, visited: set<nat>, current: seq<nat>,
               rest: seq<nat>, x: nat, ghost links: seq<nat>, ghost parents: seq<nat>)
    returns (visited': set<nat>, current': seq<nat>, stack': seq<nat>, ghost links': seq<nat>, ghost parents': seq<nat>)
    requires Symmetric(dist)
    requires x < |pts| && x !in visited
    requires forall v :: v in visited ==> v < |pts|
    requires forall v :: v in rest ==> v < |pts| && v !in done
    requires forall v :: v in visited <==> v in done || v in current
    requires forall w: nat :: multiset(Flatten(clusters))[w] == (if w in done then 1 else 0)
    requires forall v: nat :: multiset(Flatten(clusters) + current)[v] == (if v in visited then 1 else 0)
    requires forall k :: 0 <= k < |clusters| ==> ClosedUnder(clusters[k], pts, maxDistance, dist)
    requires Frontier(current, rest + [x], pts, maxDistance, dist)
    requires LinkedBy(current, links, pts, maxDistance, dist)
    requires current != [] ==> AttachedBy(current, rest + [x], parents, pts, maxDistance, dist)
    requires current == [] ==> rest == []
    ensures visited' == visited + {x} && current' == current + [x]
    ensures forall v :: v in stack' ==> v < |pts| && v !in done
    ensures forall v: nat :: multiset(Flatten(clusters) + current')[v] == (if v in visited' then 1 else 0)
    ensures Frontier(current', stack', pts, maxDistance, dist)
    ensures LinkedBy(current', links', pts, maxDistance, dist)
    ensures AttachedBy(current', stack', parents', pts, maxDistance, dist)
  {
    stack' := PushNeighbours(pts, x, maxDistance, dist, visited + {x}, rest);
    assert x !in done;
    CountVisit(Flatten(clusters), current, visited, x);
    VisitKeeps(pts, maxDistance, dist, clusters, done, visited, current, rest, x, stack');
    ghost var p, ps := 0, [];
    if current != [] {
      AttachedPop(current, rest, x, parents, pts, maxDistance, dist);
      p, ps := parents[|rest|], parents[..|rest|];
      assert (rest + [x])[|rest|] == x;
    }
    LinkVisit(current, links, rest, ps, p, x, stack', pts, maxDistance, dist);
    links', parents' := links + [p], ps + seq(|stack'| - |rest|, _ => |current|);
    visited' := visited + {x};
    current' := current + [x];
  }

  /** Visiting `x` and pushing its unvisited neighbours keeps every point
      within reach of the cluster in it or on the stack. */
  lemma VisitKeeps(pts: seq<Point>, maxDistance: real, dist: (Point, Point) -> real,
                   clusters: seq<seq<nat>>, done: set<nat>, visited: set<nat>, current: seq<nat>,
                   rest: seq<nat>, x: nat, s: seq<nat>)
    requires Symmetric(dist)
    requires forall w: nat :: multiset(Flatten(clusters))[w] == (if w in done then 1 else 0)
    requires forall k :: 0 <= k < |clusters| ==> ClosedUnder(clusters[k], pts, maxDistance, dist)
    requires forall v :: v in visited <==> v in done || v in current
    requires Frontier(current, rest + [x], pts, maxDistance, dist)
    requires x < |pts| && x !in done
    requires |s| >= |rest| && s[..|rest|] == rest
    requires forall v :: Near(pts, x, v, maxDistance, dist) && v !in visited + {x} ==> v in s
    ensures Frontier(current + [x], s, pts, maxDistance, dist)
  {
    assert forall v :: Near(pts, x, v, maxDistance, dist) && v in visited ==> v in current by {
      forall v | Near(pts, x, v, maxDistance, dist)
        ensures v !in done
      {
        if v in done {
          ReachFromDone(clusters, pts, maxDistance, dist, done, x, v);
        }
      }
    }
    assert forall v :: v in rest ==> v in s by {
      forall v | v in rest
        ensures v in s
      {
        var k :| 0 <= k < |rest| && rest[k] == v;
        assert s[k] == v;
      }
    }
    FrontierVisit(current, rest, x, s, visited, pts, maxDistance, dist);
  }

  /** A finished cluster: non-empty, closed under reach, and linked. */
  ghost predicate Component(c: seq<nat>, pts: seq<Point>, maxDistance: real, dist: (Point, Point) -> real) {
    c != [] && ClosedUnder(c, pts, maxDistance, dist) && Linked(c, pts, maxDistance, dist)
  }

  lemma AddCluster(clusters: seq<seq<nat>>, current: seq<nat>, pts: seq<Point>,
                   maxDistance: real, dist: (Point, Point) -> real)
    requires forall k :: 0 <= k < |clusters| ==> Component(clusters[k], pts, maxDistance, dist)
    requires Component(current, pts, maxDistance, dist)
    ensures Flatten(clusters + [current]) == Flatten(clusters) + current
    ensures forall k :: 0 <= k < |clusters + [current]| ==> Component((clusters + [current])[k], pts, maxDistance, dist)
  {
    FlattenAppend(clusters, [current]);
    FlattenOne(current);
  }

  /** The body of the `for i` loop for an unvisited `i`: the search from
      it, and the cluster it found appended when non-empty. */
  method SearchFrom(pts: seq<Point>, maxDistance: real, dist: (Point, Point) -> real,
                    clusters: seq<seq<nat>>, done: set<nat>, i: nat)
    returns (grown: seq<seq<nat>>, visited: set<nat>)
    requires Symmetric(dist)
    requires i < |pts| && i !in done
    requires forall v :: v in done ==> v < |pts|
    requires forall v: nat :: multiset(Flatten(clusters))[v] == (if v in done then 1 else 0)
    requires forall k :: 0 <= k < |clusters| ==> Component(clusters[k], pts, maxDistance, dist)
    ensures forall v :: v in visited ==> v < |pts|
    ensures forall v :: v in done ==> v in visited
    ensures i in visited
    ensures forall v: nat :: multiset(Flatten(grown))[v] == (if v in visited then 1 else 0)
    ensures forall k :: 0 <= k < |grown| ==> Component(grown[k], pts, maxDistance, dist)
  {
    assert forall k :: 0 <= k < |clusters| ==> ClosedUnder(clusters[k], pts, maxDistance, dist);
    var current;
    visited, current := Explore(pts, maxDistance, dist, clusters, done, i);
    grown := clusters;
    if current != [] {
      AddCluster(clusters, current, pts, maxDistance, dist);
      grown := clusters + [current];
    }
  }

  /** The depth-first search of `cluster_places_by_proximity` over the valid
      places' points: every index lands in exactly one cluster, clusters
      are non-empty, and a cluster holds every point within
      `maxDistance` of any of its members (distance being symmetric). */
  method ConnectedGroups(pts: seq<Point>, maxDistance: real, dist: (Point, Point) -> real)
    returns (clusters: seq<seq<nat>>)
    requires Symmetric(dist)
    ensures PartitionOf(clusters, |pts|)
    ensures forall k :: 0 <= k < |clusters| ==> clusters[k] != []
    ensures forall k :: 0 <= k < |clusters| ==> ClosedUnder(clusters[k], pts, maxDistance, dist)
    ensures forall k :: 0 <= k < |clusters| ==> Linked(clusters[k], pts, maxDistance, dist)
  {
    var n := |pts|;
    clusters := [];
    var visited: set<nat> := {};
    var i := 0;
    while i < n
      invariant 0 <= i <= n
      invariant forall v :: v in visited ==> v < n
      invariant forall v :: 0 <= v < i ==> v in visited
      invariant forall v: nat :: multiset(Flatten(clusters))[v] == (if v in visited then 1 else 0)
      invariant forall k :: 0 <= k < |clusters| ==> Component(clusters[k], pts, maxDistance, dist)
    {
      if i !in visited {
        clusters, visited := SearchFrom(pts, maxDistance, dist, clusters, visited, i);
      }
      i := i + 1;
    }
    forall v: nat ensures multiset(Flatten(clusters))[v] == (if v < n then 1 else 0) {
      if v < n {
        assert v in visited;
      }
    }
  }

  /** A place with its `effort_type` set by the classifier. */
  function Tagged(p: RawPlace): RawPlace {
    p.(effortType := ClassifyPlaceType(p.name, p.category))
  }

  function Materialize(valid: seq<RawPlace>, idx: seq<nat>): (r: seq<RawPlace>)
    requires forall k :: 0 <= k < |idx| ==> idx[k] < |valid|
    ensures |r| == |idx|
    ensures forall k :: 0 <= k < |idx| ==> r[k] == Tagged(valid[idx[k]])
  {
    if idx == [] then []
    else
      var rest := Materialize(valid, idx[1..]);
      assert forall k :: 1 <= k < |idx| ==> idx[1..][k - 1] == idx[k];
      [Tagged(valid[idx[0]])] + rest
  }

  function ClusterSize(c: seq<nat>): Key {
    Key(|c| as real, 0.0)
  }

  /** Sorting the clusters by size keeps the partition and the closure. */
  lemma SortedGroups(found: seq<seq<nat>>, groups: seq<seq<nat>>, pts: seq<Point>,
                     maxDistance: real, dist: (Point, Point) -> real)
    requires groups == SortDesc(found, ClusterSize)
    requires PartitionOf(found, |pts|)
    requires forall k :: 0 <= k < |found| ==> found[k] != []
    requires forall k :: 0 <= k < |found| ==> ClosedUnder(found[k], pts, maxDistance, dist)
    requires forall k :: 0 <= k < |found| ==> Linked(found[k], pts, maxDistance, dist)
    ensures PartitionOf(groups, |pts|)
    ensures forall c :: c in groups ==> c != [] && ClosedUnder(c, pts, maxDistance, dist)
    ensures forall c :: c in groups ==> Linked(c, pts, maxDistance, dist)
    ensures forall c, k :: 0 <= c < |groups| && 0 <= k < |groups[c]| ==> groups[c][k] < |pts|
    ensures forall c, d :: 0 <= c < d < |groups| ==> |groups[c]| >= |groups[d]|
  {
    SortDescSorted(found, ClusterSize);
    FlattenPermutation(groups, found);
    forall c | c in groups
      ensures c != [] && ClosedUnder(c, pts, maxDistance, dist) && Linked(c, pts, maxDistance, dist)
    {
      assert c in multiset(found);
    }
    forall c, k | 0 <= c < |groups| && 0 <= k < |groups[c]|
      ensures groups[c][k] < |pts|
    {
      var v := groups[c][k];
      FlattenMemberBack(groups, c, v);
      assert multiset(Flatten(groups))[v] >= 1;
    }
    forall c, d | 0 <= c < d < |groups|
      ensures |groups[c]| >= |groups[d]|
    {
      assert !Greater(ClusterSize(groups[d]), ClusterSize(groups[c]));
    }
  }

  /** `cluster_places_by_proximity`: the places with coordinates, grouped
      into proximity-closed clusters, each place tagged with its effort
      class, largest cluster first (ties keep search order). `groups` gives
      each cluster as positions in `ValidPlaces(places)`. The caller's list
      is a value here, so it cannot be changed. */
  method ClusterPlacesByProximity(places: seq<RawPlace>, maxDistance: real, dist: (Point, Point) -> real)
    returns (clusters: seq<seq<RawPlace>>, groups: seq<seq<nat>>)
    requires Symmetric(dist)
    ensures |clusters| == |groups|
    ensures PartitionOf(groups, |ValidPlaces(places)|)
    ensures forall c :: c in groups ==> c != [] && ClosedUnder(c, PointsOf(ValidPlaces(places)), maxDistance, dist)
    ensures forall c :: c in groups ==> Linked(c, PointsOf(ValidPlaces(places)), maxDistance, dist)
    ensures forall c, k :: 0 <= c < |groups| && 0 <= k < |groups[c]| ==> groups[c][k] < |ValidPlaces(places)|
    ensures forall c :: 0 <= c < |groups| ==> clusters[c] == Materialize(ValidPlaces(places), groups[c])
    ensures forall c, d :: 0 <= c < d < |clusters| ==> |clusters[c]| >= |clusters[d]|
  {
    var valid := ValidPlaces(places);
    var pts := PointsOf(valid);
    var found := ConnectedGroups(pts, maxDistance, dist);
    groups := SortDesc(found, ClusterSize);
    SortedGroups(found, groups, pts, maxDistance, dist);
    clusters := seq(|groups|, c requires 0 <= c < |groups| => Materialize(valid, groups[c]));
  }

  lemma {:induction false} FlattenMemberBack(cs: seq<seq<nat>>, k: int, v: nat)
    requires 0 <= k < |cs| && v in cs[k]
    ensures v in Flatten(cs)
    decreases |cs|
  {
    if k < |cs| - 1 {
      FlattenMemberBack(cs[..|cs| - 1], k, v);
    }
  }

  /** Two places within reach of each other end up in the same cluster. */
  lemma NearPlacesShareCluster(groups: seq<seq<nat>>, pts: seq<Point>, maxDistance: real,
                               dist: (Point, Point) -> real, u: nat, v: nat)
    requires PartitionOf(groups, |pts|)
    requires forall c :: c in groups ==> ClosedUnder(c, pts, maxDistance, dist)
    requires Near(pts, u, v, maxDistance, dist)
    ensures exists c :: c in groups && u in c && v in c
  {
    assert multiset(Flatten(groups))[u] == 1;
    FlattenMember(groups, u);
    var k :| 0 <= k < |groups| && u in groups[k];
    assert groups[k] in groups;
  }
}
