/** The four mandatory meal halts of every day (`_enforce_four_meals` and
    `_pick_fallback_outlet` in `services/final_route_architect.py`). */
module Meals {
  import opened Wrappers
  import opened Text
  import opened Names
  import opened Dicts
  import opened Catalog

  /** `MEAL_SLOTS`: the meal types in order with their fixed windows. */
  const MealSlots: seq<(string, string)> := [
    ("Breakfast", "08:00-09:00"),
    ("Lunch", "13:00-14:00"),
    ("Snacks", "16:30-17:30"),
    ("Dinner", "20:00-21:00")
  ]

  /** The position of a meal type in `MEAL_SLOTS`, if it is one. */
  function SlotIndex(mealType: string): (r: Option<nat>)
    ensures r.Some? ==> r.value < |MealSlots| && MealSlots[r.value].0 == mealType
    ensures r.None? ==> forall i :: 0 <= i < |MealSlots| ==> MealSlots[i].0 != mealType
  {
    if mealType == "Breakfast" then Some(0)
    else if mealType == "Lunch" then Some(1)
    else if mealType == "Snacks" then Some(2)
    else if mealType == "Dinner" then Some(3)
    else None
  }

  /** A food halt as the model proposes it (each field `str()`-ed, `""`
      when missing). */
  datatype RawHalt = RawHalt(mealType: string, outlet: string, signatureDish: string, area: string, reasonSelected: string)

  datatype MealHalt = MealHalt(time: string, mealType: string, outlet: string, signatureDish: string, area: string, reasonSelected: string)

  datatype Fallback = Fallback(outlet: string, signatureDish: string, area: string)

  const Placeholder := Fallback("Local iconic eatery", "Regional specialty", "City Center")

  /** The outlet's first signature dish, else its cuisine. */
  function DishOf(o: FoodOutlet): string {
    if o.signatureDishes != [] then o.signatureDishes[0] else o.cuisine
  }

  /** The outlet's area, "City Center" when blank. */
  function AreaOf(o: FoodOutlet): string {
    if o.area != [] then o.area else "City Center"
  }

  function FallbackOf(o: FoodOutlet): Fallback {
    Fallback(o.name, DishOf(o), AreaOf(o))
  }

  predicate Serves(o: FoodOutlet, mealType: string) {
    mealType in o.mealSlots
  }

  /** The first outlet listing the meal among its slots. */
  function FirstServing(outlets: seq<FoodOutlet>, mealType: string): (r: Option<nat>)
    ensures r.Some? ==> r.value < |outlets| && Serves(outlets[r.value], mealType)
    ensures r.Some? ==> forall j :: 0 <= j < r.value ==> !Serves(outlets[j], mealType)
    ensures r.None? ==> forall j :: 0 <= j < |outlets| ==> !Serves(outlets[j], mealType)
  {
    if outlets == [] then None
    else if Serves(outlets[0], mealType) then Some(0)
    else match FirstServing(outlets[1..], mealType)
      case None => None
      case Some(k) => Some(k + 1)
  }

  /** `_pick_fallback_outlet` over the food index values in insertion order. */
  function PickFallbackOutlet(outlets: seq<FoodOutlet>, mealType: string): (r: Fallback)
    ensures (exists k :: 0 <= k < |outlets| && Serves(outlets[k], mealType)) ==>
      exists k :: 0 <= k < |outlets| && Serves(outlets[k], mealType) && r == FallbackOf(outlets[k])
        && forall j :: 0 <= j < k ==> !Serves(outlets[j], mealType)
    ensures (forall k :: 0 <= k < |outlets| ==> !Serves(outlets[k], mealType)) && outlets != [] ==> r == FallbackOf(outlets[0])
    ensures outlets == [] ==> r == Placeholder
  {
    match FirstServing(outlets, mealType)
    case Some(k) => FallbackOf(outlets[k])
    case None => if outlets == [] then Placeholder else FallbackOf(outlets[0])
  }

  /** The meal type as the halt is matched on: stripped and title-cased. */
  function HaltMealType(h: RawHalt): string {
    Title(Strip(h.mealType))
  }

  /** A halt is used when its meal type is one of the four and its
      canonical outlet is in the food index. */
  predicate HaltUsable(h: RawHalt, index: FoodIndex) {
    SlotIndex(HaltMealType(h)).Some? && Canonical(h.outlet) != [] && Canonical(h.outlet) in index.entries
  }

  /** The normalised halt: the slot's window, the indexed outlet name, and
      the proposed dish, area and reason with their fallbacks. */
  function NormalizeHalt(h: RawHalt, index: FoodIndex): MealHalt
    requires HaltUsable(h, index)
  {
    var mealType := HaltMealType(h);
    var o := index.entries[Canonical(h.outlet)];
    var dish := Strip(h.signatureDish);
    var dish := if dish != [] then dish
                else if o.signatureDishes != [] then o.signatureDishes[0]
                else if o.cuisine != [] then o.cuisine
                else "Local specialty";
    var area := Strip(h.area);
    var area := if area != [] then area else AreaOf(o);
    var reason := Strip(h.reasonSelected);
    var reason := if reason != [] then reason else "Chosen for local legacy and route proximity.";
    MealHalt(MealSlots[SlotIndex(mealType).value].1, mealType, o.name, dish, area, reason)
  }

  function UsableIn(index: FoodIndex): RawHalt -> bool {
    h => HaltUsable(h, index)
  }

  function NormalizedIn(index: FoodIndex): RawHalt -> MealHalt {
    h => if HaltUsable(h, index) then NormalizeHalt(h, index) else MealHalt("", "", "", "", "", "")
  }

  /** The `normalized_by_meal` dict after the first loop. */
  function ByMeal(halts: seq<RawHalt>, index: FoodIndex): Dict<MealHalt> {
    Build(halts, HaltMealType, UsableIn(index), NormalizedIn(index))
  }

  /** The meal of one slot: the proposed one, or an auto-filled fallback. */
  function FinalMeal(byMeal: Dict<MealHalt>, outlets: seq<FoodOutlet>, i: nat): MealHalt
    requires i < |MealSlots|
  {
    var (mealType, slot) := MealSlots[i];
    if mealType in byMeal.entries then byMeal.entries[mealType]
    else
      var f := PickFallbackOutlet(outlets, mealType);
      MealHalt(slot, mealType, f.outlet, f.signatureDish, f.area, "Auto-filled to enforce mandatory 4-meal structure.")
  }

  /** The entries of `normalized_by_meal` are stored under their own meal
      type and carry that type's window. */
  ghost predicate Consistent(byMeal: Dict<MealHalt>) {
    forall t :: t in byMeal.entries ==>
      SlotIndex(t).Some? && byMeal.entries[t].mealType == t && byMeal.entries[t].time == MealSlots[SlotIndex(t).value].1
  }

  lemma ByMealConsistent(halts: seq<RawHalt>, index: FoodIndex)
    ensures Consistent(ByMeal(halts, index))
  {
    forall t | t in ByMeal(halts, index).entries
      ensures SlotIndex(t).Some? && ByMeal(halts, index).entries[t].mealType == t
      ensures ByMeal(halts, index).entries[t].time == MealSlots[SlotIndex(t).value].1
    {
      BuildEntryFrom(halts, HaltMealType, UsableIn(index), NormalizedIn(index), t);
    }
  }

  /** `_enforce_four_meals`: always four halts, Breakfast, Lunch, Snacks and
      Dinner in that order, each at its fixed window; a slot with a usable
      proposed halt gets the last such halt, the others an auto-filled
      fallback outlet. */
  method EnforceFourMeals(halts: seq<RawHalt>, index: FoodIndex) returns (meals: seq<MealHalt>)
    requires forall i :: 0 <= i < |index.keys| ==> index.keys[i] in index.entries
    ensures |meals| == |MealSlots|
    ensures forall i :: 0 <= i < |meals| ==> meals[i].mealType == MealSlots[i].0 && meals[i].time == MealSlots[i].1
    ensures forall i :: 0 <= i < |meals| ==> meals[i] == FinalMeal(ByMeal(halts, index), Values(index), i)
  {
    var byMeal := BuildLoop(halts, HaltMealType, UsableIn(index), NormalizedIn(index));
    ByMealConsistent(halts, index);
    meals := FillSlots(byMeal, Values(index));
  }

  /** The second loop of `_enforce_four_meals`, over `MEAL_SLOTS`. */
  method FillSlots(byMeal: Dict<MealHalt>, outlets: seq<FoodOutlet>) returns (meals: seq<MealHalt>)
    requires Consistent(byMeal)
    ensures |meals| == |MealSlots|
    ensures forall i :: 0 <= i < |meals| ==> meals[i].mealType == MealSlots[i].0 && meals[i].time == MealSlots[i].1
    ensures forall i :: 0 <= i < |meals| ==> meals[i] == FinalMeal(byMeal, outlets, i)
  {
    meals := [];
    var i := 0;
    while i < |MealSlots|
      invariant 0 <= i <= |MealSlots|
      invariant |meals| == i
      invariant forall k :: 0 <= k < i ==> meals[k] == FinalMeal(byMeal, outlets, k)
    {
      var (mealType, slot) := MealSlots[i];
      var meal: MealHalt;
      if mealType in byMeal.entries {
        meal := byMeal.entries[mealType];
        assert SlotIndex(mealType) == Some(i);
      } else {
        var f := PickFallbackOutlet(outlets, mealType);
        meal := MealHalt(slot, mealType, f.outlet, f.signatureDish, f.area, "Auto-filled to enforce mandatory 4-meal structure.");
      }
      assert meal == FinalMeal(byMeal, outlets, i);
      meals := meals + [meal];
      i := i + 1;
    }
    forall k | 0 <= k < |meals|
      ensures meals[k].mealType == MealSlots[k].0 && meals[k].time == MealSlots[k].1
    {
      FinalMealSlot(byMeal, outlets, k);
    }
  }

  /** The meal of slot `i` carries that slot's meal type and window. */
  lemma FinalMealSlot(byMeal: Dict<MealHalt>, outlets: seq<FoodOutlet>, i: nat)
    requires Consistent(byMeal) && i < |MealSlots|
    ensures FinalMeal(byMeal, outlets, i).mealType == MealSlots[i].0
    ensures FinalMeal(byMeal, outlets, i).time == MealSlots[i].1
  {
    var t := MealSlots[i].0;
    if t in byMeal.entries {
      assert SlotIndex(t) == Some(i);
    }
  }

  /** A later usable halt for the same meal overwrites an earlier one: the
      last usable halt of a meal type is the one kept. */
  lemma LastHaltWins(halts: seq<RawHalt>, index: FoodIndex, j: nat)
    requires j < |halts| && HaltUsable(halts[j], index)
    requires forall i :: j < i < |halts| && HaltUsable(halts[i], index) ==> HaltMealType(halts[i]) != HaltMealType(halts[j])
    ensures HaltMealType(halts[j]) in ByMeal(halts, index).entries
    ensures ByMeal(halts, index).entries[HaltMealType(halts[j])] == NormalizeHalt(halts[j], index)
  {
    BuildLastWins(halts, HaltMealType, UsableIn(index), NormalizedIn(index), j);
  }

  /** A slot is auto-filled exactly when no usable halt proposes its meal. */
  lemma AutoFilledIff(halts: seq<RawHalt>, index: FoodIndex, i: nat)
    requires i < |MealSlots|
    ensures MealSlots[i].0 !in ByMeal(halts, index).entries
        <==> forall j :: 0 <= j < |halts| && HaltUsable(halts[j], index) ==> HaltMealType(halts[j]) != MealSlots[i].0
  {
    BuildKeys(halts, HaltMealType, UsableIn(index), NormalizedIn(index), MealSlots[i].0);
  }

  /** Meal types match case-insensitively: "lunch" and "LUNCH" both fill the
      Lunch slot. */
  lemma MealTypeIgnoresCase(h: RawHalt, i: nat)
    requires i < |MealSlots|
    ensures HaltMealType(h) == MealSlots[i].0 <==> Lower(Strip(h.mealType)) == Lower(MealSlots[i].0)
  {
    var t := MealSlots[i].0;
    assert IsTitleWord(t) by {
      assert t == "Breakfast" || t == "Lunch" || t == "Snacks" || t == "Dinner";
    }
    TitleMatchesIgnoringCase(Strip(h.mealType), t);
  }
}
