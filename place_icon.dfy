/** The icon chosen for a place from its name
    (`getPlaceKind` in `components/PlaceIcon.tsx`): an ordered list of
    keyword patterns tested on the lowered name, the first match winning. */
module PlaceIcon {
  import opened Wrappers
  import opened Text

  datatype PlaceKind = Temple | Fort | Museum | Garden | Market | Food | Nature | Landmark

  /** The patterns in the order they are tried; a pattern `a|b|...`
      matches when one of its words occurs in the name. */
  const KindRules: seq<(PlaceKind, seq<string>)> := [
    (Temple, ["temple", "ganapati", "ganpati", "devi", "mandir", "dargah", "church", "mosque"]),
    (Fort, ["fort", "wada", "mahal", "palace", "qila", "citadel"]),
    (Museum, ["museum", "gallery", "archive", "planetarium"]),
    (Garden, ["garden", "park", "lake", "hill", "river", "beach"]),
    (Market, ["market", "bazaar", "mall", "street", "city", "shopping", "baug"]),
    (Food, ["cafe", "restaurant", "food", "eatery", "kitchen"]),
    (Nature, ["sanctuary", "forest", "zoo", "trail", "valley"])
  ]

  /** Pattern `i` matches the lowered name. */
  predicate RuleMatches(i: nat, name: string)
    requires i < |KindRules|
  {
    AnyContains(Lower(name), KindRules[i].1)
  }

  /** The first pattern at or after `from` that matches. */
  function FirstRule(from: nat, name: string): (r: Option<nat>)
    requires from <= |KindRules|
    ensures r.Some? ==> from <= r.value < |KindRules| && RuleMatches(r.value, name)
    ensures r.Some? ==> forall j :: from <= j < r.value ==> !RuleMatches(j, name)
    ensures r.None? ==> forall j :: from <= j < |KindRules| ==> !RuleMatches(j, name)
    decreases |KindRules| - from
  {
    if from == |KindRules| then None
    else if RuleMatches(from, name) then Some(from)
    else FirstRule(from + 1, name)
  }

  /** `getPlaceKind`. */
  function GetPlaceKind(name: string): PlaceKind {
    match FirstRule(0, name)
    case Some(i) => KindRules[i].0
    case None => Landmark
  }

  /** The kind is that of the first matching pattern. */
  lemma FirstMatchWins(name: string, i: nat)
    requires i < |KindRules| && RuleMatches(i, name)
    requires forall j :: 0 <= j < i ==> !RuleMatches(j, name)
    ensures GetPlaceKind(name) == KindRules[i].0
  {
  }

  /** "landmark" exactly when no pattern matches. */
  lemma LandmarkIffNoMatch(name: string)
    ensures GetPlaceKind(name) == Landmark <==> forall j :: 0 <= j < |KindRules| ==> !RuleMatches(j, name)
  {
    var r := FirstRule(0, name);
    if r.Some? {
      assert KindRules[r.value].0 != Landmark;
    }
  }

  /** Each kind other than "landmark" comes from its own pattern, so the
      kind names the first pattern that matched. */
  lemma KindIsFirstMatch(name: string)
    requires GetPlaceKind(name) != Landmark
    ensures exists i :: 0 <= i < |KindRules| && RuleMatches(i, name) && KindRules[i].0 == GetPlaceKind(name)
                        && forall j :: 0 <= j < i ==> !RuleMatches(j, name)
  {
    var r := FirstRule(0, name);
  }

  /** Matching ignores case. */
  lemma KindIgnoresCase(a: string, b: string)
    requires Lower(a) == Lower(b)
    ensures GetPlaceKind(a) == GetPlaceKind(b)
  {
    assert forall i :: 0 <= i < |KindRules| ==> (RuleMatches(i, a) <==> RuleMatches(i, b));
    SameMatchesSameRule(a, b, 0);
  }

  lemma {:induction false} SameMatchesSameRule(a: string, b: string, from: nat)
    requires from <= |KindRules|
    requires forall i :: 0 <= i < |KindRules| ==> (RuleMatches(i, a) <==> RuleMatches(i, b))
    ensures FirstRule(from, a) == FirstRule(from, b)
    decreases |KindRules| - from
  {
    if from < |KindRules| {
      SameMatchesSameRule(a, b, from + 1);
    }
  }

  lemma ContainsWord(name: string, i: nat, k: nat)
    requires i < |KindRules| && k < |KindRules[i].1|
    requires Contains(Lower(name), KindRules[i].1[k])
    ensures RuleMatches(i, name)
  {
  }

  /** A name with both a temple word and a fort word shows a temple. */
  lemma TempleBeforeFort(name: string)
    requires Contains(Lower(name), "temple") && Contains(Lower(name), "fort")
    ensures GetPlaceKind(name) == Temple
  {
    ContainsWord(name, 0, 0);
    FirstMatchWins(name, 0);
  }

  /** "hill" shows a garden, unless a temple, fort or museum word occurs. */
  lemma HillIsGarden(name: string)
    requires Contains(Lower(name), "hill")
    requires !RuleMatches(0, name) && !RuleMatches(1, name) && !RuleMatches(2, name)
    ensures GetPlaceKind(name) == Garden
  {
    ContainsWord(name, 3, 3);
    FirstMatchWins(name, 3);
  }

  /** "city" (as in "Marketcity") shows a market unless an earlier pattern
      matches. */
  lemma CityIsMarket(name: string)
    requires Contains(Lower(name), "city")
    requires forall j :: 0 <= j < 4 ==> !RuleMatches(j, name)
    ensures GetPlaceKind(name) == Market
  {
    ContainsWord(name, 4, 4);
    FirstMatchWins(name, 4);
  }

  /** "zoo" shows nature unless an earlier pattern matches. */
  lemma ZooIsNature(name: string)
    requires Contains(Lower(name), "zoo")
    requires forall j :: 0 <= j < 6 ==> !RuleMatches(j, name)
    ensures GetPlaceKind(name) == Nature
  {
    ContainsWord(name, 6, 2);
    FirstMatchWins(name, 6);
  }
}
