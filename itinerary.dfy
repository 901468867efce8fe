/** The whole repair of a proposed itinerary (`_sanitize_itinerary` and
    `_day_cost` in `services/final_route_architect.py`): day plans with a
    fallback place for empty days, four meals a day, clamped walking
    estimates, the mandatory places, visit times, and the day and trip
    costs. */
module Itinerary {
  import opened Wrappers
  import opened Text
  import opened Names
  import opened Places
  import opened Seqs
  import opened Dicts
  import opened Sorting
  import opened Catalog
  import opened DayBlocks
  import opened Meals
  import opened Timing
  import opened Mandatory

  const DayWindow := "08:00-20:00"
  const DefaultFlow := "Directional movement with low backtracking and realistic segment durations."
  const FallbackReason := "Fallback from verified place index."
  const DefaultHotelReason := "Central area minimizes average daily commute."

  /** The fixed daily allowance: 700 for food and 700 for local transport. */
  const DailyAllowance: real := 700.0 + 700.0

  // ---------------------------------------------------------------------
  // Day cost
  // ---------------------------------------------------------------------

  function Price(index: PlaceIndex): string -> real {
    (c: string) => if c in index.entries then index.entries[c].ticketPrice else 0.0
  }

  /** `_day_cost` on the places of a day's blocks: the ticket prices of the
      distinct indexed places, plus the daily allowance. */
  function DayCost(places: seq<string>, index: PlaceIndex): real {
    Total(Map(IndexedNames(places, index), Price(index))) + DailyAllowance
  }

  /** With no negative ticket price, a day costs at least the allowance. */
  lemma DayCostAtLeastAllowance(places: seq<string>, index: PlaceIndex)
    requires forall c :: c in index.entries ==> index.entries[c].ticketPrice >= 0.0
    ensures DayCost(places, index) >= DailyAllowance
  {
    var xs := Map(IndexedNames(places, index), Price(index));
    forall k | 0 <= k < |xs|
      ensures xs[k] >= 0.0
    {
    }
    TotalNonNegative(xs);
  }

  /** A place visited twice (under any spelling with the same canonical
      name) is paid for once. */
  lemma DayCostRepeatFree(places: seq<string>, p: string, index: PlaceIndex)
    requires exists i :: 0 <= i < |places| && Canonical(places[i]) == Canonical(p)
    ensures DayCost(places + [p], index) == DayCost(places, index)
  {
    var cs := Map(places, CanonicalOf());
    MapAppend(places, p, CanonicalOf());
    var i :| 0 <= i < |places| && Canonical(places[i]) == Canonical(p);
    assert cs[i] == CanonicalOf()(p);
    DistinctAppend(cs, IndexedKey(index), CanonicalOf()(p));
  }

  /** A new indexed place adds its ticket price; a place missing from the
      index adds nothing. */
  lemma DayCostAddsNew(places: seq<string>, p: string, index: PlaceIndex)
    requires forall i :: 0 <= i < |places| ==> Canonical(places[i]) != Canonical(p)
    ensures Canonical(p) in index.entries ==>
      DayCost(places + [p], index) == DayCost(places, index) + index.entries[Canonical(p)].ticketPrice
    ensures Canonical(p) !in index.entries ==> DayCost(places + [p], index) == DayCost(places, index)
  {
    var cs := Map(places, CanonicalOf());
    var c := CanonicalOf()(p);
    MapAppend(places, p, CanonicalOf());
    assert c !in cs;
    DistinctAppend(cs, IndexedKey(index), c);
    var names := IndexedNames(places, index);
    MapAppend(names, c, Price(index));
    TotalAppend(Map(names, Price(index)), [Price(index)(c)]);
  }

  // ---------------------------------------------------------------------
  // Walking estimate
  // ---------------------------------------------------------------------

  function Max(a: real, b: real): real {
    if a >= b then a else b
  }

  function Min(a: real, b: real): real {
    if a <= b then a else b
  }

  const NoPlace := IndexedPlace("", 0.0, 0.0, 0.0, "", "", 0.0, "")

  /** `place_index.get(_canonical_name(place), {})`. */
  function PlaceOrEmpty(index: PlaceIndex, place: string): IndexedPlace {
    Lookup(index, place).GetOr(NoPlace)
  }

  /** The day is a single high-effort place. */
  predicate SoloHighEffort(plan: seq<Block>, index: PlaceIndex) {
    |plan| == 1 && IsHighEffort(PlaceOrEmpty(index, plan[0].place))
  }

  /** The walking estimate: the proposed number (3.0 when it is missing or
      not a number), raised to 4.5 for a day that is one high-effort place
      and capped at 4.0 otherwise, and never negative. */
  function Walking(proposed: Option<real>, plan: seq<Block>, index: PlaceIndex): real {
    var w := proposed.GetOr(3.0);
    var w := if SoloHighEffort(plan, index) then Max(w, 4.5) else Min(w, 4.0);
    Max(w, 0.0)
  }

  /** A single high-effort place gets at least 4.5 km and never less than
      proposed; any other day gets between 0 and 4 km, and an estimate
      already in that range is kept. */
  lemma WalkingBounds(proposed: Option<real>, plan: seq<Block>, index: PlaceIndex)
    ensures Walking(proposed, plan, index) >= 0.0
    ensures SoloHighEffort(plan, index) ==>
      Walking(proposed, plan, index) >= 4.5 && Walking(proposed, plan, index) >= proposed.GetOr(3.0)
    ensures !SoloHighEffort(plan, index) ==> Walking(proposed, plan, index) <= 4.0
    ensures !SoloHighEffort(plan, index) && 0.0 <= proposed.GetOr(3.0) <= 4.0 ==>
      Walking(proposed, plan, index) == proposed.GetOr(3.0)
    ensures proposed.None? && !SoloHighEffort(plan, index) ==> Walking(proposed, plan, index) == 3.0
  {
  }

  /** A place missing from the index (an empty dict in the source) is not
      high-effort. */
  lemma EmptyPlaceNotHighEffort()
    ensures !IsHighEffort(NoPlace)
  {
    forall k | 0 <= k < |HighEffortKeywords|
      ensures !Contains(Lower(NoPlace.name + " " + NoPlace.category + " " + NoPlace.effortType), HighEffortKeywords[k])
    {
      ShortTextMisses(Lower(NoPlace.name + " " + NoPlace.category + " " + NoPlace.effortType), HighEffortKeywords[k]);
    }
  }

  // ---------------------------------------------------------------------
  // Fallback places for empty days
  // ---------------------------------------------------------------------

  function RatingKey(): IndexedPlace -> Key {
    (p: IndexedPlace) => Key(p.rating, 0.0)
  }

  /** `fallback_places`: the index values, best rated first, equal ratings
      in index order. */
  function FallbackOrder(index: PlaceIndex): seq<IndexedPlace>
    requires forall i :: 0 <= i < |index.keys| ==> index.keys[i] in index.entries
  {
    SortDesc(Values(index), RatingKey())
  }

  /** The fallback order holds every indexed place once, by descending
      rating, and keeps index order among equal ratings. */
  lemma FallbackOrderRanked(index: PlaceIndex, k: Key)
    requires forall i :: 0 <= i < |index.keys| ==> index.keys[i] in index.entries
    ensures multiset(FallbackOrder(index)) == multiset(Values(index))
    ensures forall i, j :: 0 <= i < j < |FallbackOrder(index)| ==> FallbackOrder(index)[i].rating >= FallbackOrder(index)[j].rating
    ensures WithKey(FallbackOrder(index), RatingKey(), k) == WithKey(Values(index), RatingKey(), k)
  {
    SortDescSorted(Values(index), RatingKey());
    SortDescStable(Values(index), RatingKey(), k);
    forall i, j | 0 <= i < j < |FallbackOrder(index)|
      ensures FallbackOrder(index)[i].rating >= FallbackOrder(index)[j].rating
    {
      assert !Greater(RatingKey()(FallbackOrder(index)[j]), RatingKey()(FallbackOrder(index)[i]));
    }
  }

  /** `fallback_cursor` and `used_places`. */
  datatype Cursor = Cursor(next: nat, used: set<string>)

  /** The first candidate at or after `from` whose key is not used. */
  function FirstUnused<T>(xs: seq<T>, key: T -> string, from: nat, used: set<string>): (r: Option<nat>)
    ensures r.Some? ==> from <= r.value < |xs| && key(xs[r.value]) !in used
    ensures r.Some? ==> forall k :: from <= k < r.value ==> key(xs[k]) in used
    ensures r.None? ==> forall k :: from <= k < |xs| ==> key(xs[k]) in used
    decreases |xs| - from
  {
    if from >= |xs| then None
    else if key(xs[from]) !in used then Some(from)
    else FirstUnused(xs, key, from + 1, used)
  }

  /** The fallback step of one day: nothing for a day that has blocks or
      when the candidates are used up; otherwise the first unused
      candidate, which is then marked used, with the cursor past it. */
  function Pick<T>(empty: bool, xs: seq<T>, key: T -> string, c: Cursor): (r: (Option<nat>, Cursor))
    ensures r.0.Some? ==> empty && c.next <= r.0.value < |xs| && key(xs[r.0.value]) !in c.used
    ensures r.0.Some? ==> forall k :: c.next <= k < r.0.value ==> key(xs[k]) in c.used
    ensures r.0.Some? ==> r.1 == Cursor(r.0.value + 1, c.used + {key(xs[r.0.value])})
    ensures r.0.None? ==> c.used == r.1.used && c.next <= r.1.next
  {
    if !empty || c.next >= |xs| then (None, c)
    else match FirstUnused(xs, key, c.next, c.used)
      case Some(k) => (Some(k), Cursor(k + 1, c.used + {key(xs[k])}))
      case None => (None, Cursor(|xs|, c.used))
  }

  /** The inner `while fallback_cursor < len(fallback_places)` loop. */
  method PickLoop<T>(empty: bool, xs: seq<T>, key: T -> string, c: Cursor) returns (pick: Option<nat>, c': Cursor)
    ensures (pick, c') == Pick(empty, xs, key, c)
  {
    pick, c' := None, c;
    if empty && c.next < |xs| {
      var cursor := c.next;
      while cursor < |xs|
        invariant c.next <= cursor <= |xs|
        invariant FirstUnused(xs, key, c.next, c.used) == FirstUnused(xs, key, cursor, c.used)
      {
        var k := cursor;
        cursor := cursor + 1;
        if key(xs[k]) in c.used {
          continue;
        }
        pick, c' := Some(k), Cursor(cursor, c.used + {key(xs[k])});
        return;
      }
      c' := Cursor(cursor, c.used);
    }
  }

  /** The fallback picks of the days in order, the cursor and the used set
      carried from each day to the next. */
  function Picks<T>(empties: seq<bool>, xs: seq<T>, key: T -> string, c: Cursor): (r: seq<Option<nat>>)
    ensures |r| == |empties|
    ensures forall d :: 0 <= d < |r| && r[d].Some? ==> empties[d] && r[d].value < |xs|
    decreases |empties|
  {
    if empties == [] then []
    else
      var (p, c') := Pick(empties[0], xs, key, c);
      [p] + Picks(empties[1..], xs, key, c')
  }

  /** Every pick is at or after the cursor and its key was not used yet. */
  lemma {:induction false} PicksFresh<T>(empties: seq<bool>, xs: seq<T>, key: T -> string, c: Cursor, d: nat)
    requires d < |empties| && Picks(empties, xs, key, c)[d].Some?
    ensures Picks(empties, xs, key, c)[d].value >= c.next
    ensures key(xs[Picks(empties, xs, key, c)[d].value]) !in c.used
    decreases |empties|
  {
    if d > 0 {
      var (p, c') := Pick(empties[0], xs, key, c);
      PicksFresh(empties[1..], xs, key, c', d - 1);
    }
  }

  /** Later days take later candidates, and no candidate key is taken twice:
      with the candidates best rated first, the empty days get places of
      descending rating, never the same place twice. */
  lemma {:induction false} PicksNeverRepeat<T>(empties: seq<bool>, xs: seq<T>, key: T -> string, c: Cursor, d: nat, e: nat)
    requires d < e < |empties|
    requires Picks(empties, xs, key, c)[d].Some? && Picks(empties, xs, key, c)[e].Some?
    ensures Picks(empties, xs, key, c)[d].value < Picks(empties, xs, key, c)[e].value
    ensures key(xs[Picks(empties, xs, key, c)[d].value]) != key(xs[Picks(empties, xs, key, c)[e].value])
    decreases |empties|
  {
    var (p, c') := Pick(empties[0], xs, key, c);
    if d == 0 {
      PicksFresh(empties[1..], xs, key, c', e - 1);
    } else {
      PicksNeverRepeat(empties[1..], xs, key, c', d - 1, e - 1);
    }
  }

  /** A day's blocks after the fallback step. */
  function WithFallback<T>(plan: seq<Block>, pick: Option<nat>, xs: seq<T>, mk: T -> Block): seq<Block> {
    if pick.Some? && pick.value < |xs| then [mk(xs[pick.value])] else plan
  }

  /** Which days came out of sanitizing empty. */
  function Empties(plans: seq<seq<Block>>): (r: seq<bool>)
    ensures |r| == |plans|
  {
    seq(|plans|, d requires 0 <= d < |plans| => plans[d] == [])
  }

  /** Every day's blocks after the fallback step, the cursor starting at the
      best candidate with nothing used. */
  function WithFallbacks<T>(plans: seq<seq<Block>>, xs: seq<T>, key: T -> string, mk: T -> Block): (r: seq<seq<Block>>)
    ensures |r| == |plans|
  {
    var picks := Picks(Empties(plans), xs, key, Cursor(0, {}));
    seq(|plans|, d requires 0 <= d < |plans| => WithFallback(plans[d], picks[d], xs, mk))
  }

  /** The fallback step over all days, carrying the cursor and the used set
      from day to day. */
  method ApplyFallbacks<T>(plans: seq<seq<Block>>, xs: seq<T>, key: T -> string, mk: T -> Block)
    returns (planned: seq<seq<Block>>)
    ensures planned == WithFallbacks(plans, xs, key, mk)
  {
    ghost var empties := Empties(plans);
    ghost var picks := Picks(empties, xs, key, Cursor(0, {}));
    planned := [];
    var cursor := Cursor(0, {});
    var d := 0;
    while d < |plans|
      invariant 0 <= d <= |plans| && |planned| == d
      invariant Picks(empties[d..], xs, key, cursor) == picks[d..]
      invariant forall e :: 0 <= e < d ==> planned[e] == WithFallback(plans[e], picks[e], xs, mk)
    {
      PicksStep(empties, xs, key, cursor, picks, d);
      var pick;
      pick, cursor := PickLoop(plans[d] == [], xs, key, cursor);
      var blocks := plans[d];
      if pick.Some? {
        blocks := [mk(xs[pick.value])];
      }
      assert blocks == WithFallback(plans[d], picks[d], xs, mk);
      planned := planned + [blocks];
      d := d + 1;
    }
  }

  lemma PicksStep<T>(empties: seq<bool>, xs: seq<T>, key: T -> string, c: Cursor, picks: seq<Option<nat>>, d: nat)
    requires d < |empties| == |picks|
    requires Picks(empties[d..], xs, key, c) == picks[d..]
    ensures Pick(empties[d], xs, key, c).0 == picks[d]
    ensures Picks(empties[d + 1..], xs, key, Pick(empties[d], xs, key, c).1) == picks[d + 1..]
  {
    assert empties[d..][0] == empties[d] && empties[d..][1..] == empties[d + 1..];
    assert picks[d..][0] == picks[d] && picks[d..][1..] == picks[d + 1..];
  }

  /** Where the fallback picks go: only to days that came out empty, each
      a single block of its candidate; the other days keep their blocks. */
  lemma WithFallbacksDays<T>(plans: seq<seq<Block>>, xs: seq<T>, key: T -> string, mk: T -> Block, d: nat)
    requires d < |plans|
    ensures plans[d] != [] ==> WithFallbacks(plans, xs, key, mk)[d] == plans[d]
    ensures var p := Picks(Empties(plans), xs, key, Cursor(0, {}))[d];
      p.Some? ==> plans[d] == [] && p.value < |xs| && WithFallbacks(plans, xs, key, mk)[d] == [mk(xs[p.value])]
    ensures var p := Picks(Empties(plans), xs, key, Cursor(0, {}))[d];
      p.None? ==> WithFallbacks(plans, xs, key, mk)[d] == plans[d]
  {
  }

  // ---------------------------------------------------------------------
  // The days
  // ---------------------------------------------------------------------

  /** A proposed day, each field as read with `.get(...)`: the blocks, the
      food halts, the walking estimate when it is a number, and the flow
      text. */
  datatype RawDay = RawDay(blocks: seq<RawBlock>, foodHalts: seq<RawHalt>, walkingKm: Option<real>, flow: string)

  /** `{}`, standing in for a day the proposal does not have. */
  const NoDay := RawDay([], [], None, "")

  /** The proposal: title, hotel area and reason, days. */
  datatype RawItinerary = RawItinerary(title: string, hotelArea: string, hotelReason: string, days: seq<RawDay>)

  datatype Day = Day(day: nat, window: string, flow: string, walkingKm: real,
                     blocks: seq<TimedBlock>, meals: seq<MealHalt>, cost: real)

  datatype Hotel = Hotel(area: string, reason: string)

  datatype Plan = Plan(title: string, hotel: Hotel, days: seq<Day>, totalCost: real, withinBudget: bool)

  /** Day `d + 1` of the proposal: `raw_days[idx - 1] if idx - 1 <
      len(raw_days) else {}`, for `count` days. */
  function RawDays(raws: seq<RawDay>, count: nat): (r: seq<RawDay>)
    ensures |r| == count
  {
    seq(count, d requires 0 <= d < count => if d < |raws| then raws[d] else NoDay)
  }

  /** What the day planner works against: the place index, its centroid,
      the distance, and the fallback candidates. */
  datatype Setting = Setting(index: PlaceIndex, center: Point, dist: (Point, Point) -> real, fallback: seq<IndexedPlace>)

  function Planner(s: Setting): RawDay -> seq<Block> {
    (raw: RawDay) => DayPlan(raw.blocks, s.index, s.center, s.dist)
  }

  /** Sanitizing every day's proposed blocks. */
  method PlanEachDay(rawDays: seq<RawDay>, s: Setting) returns (plans: seq<seq<Block>>)
    ensures plans == Map(rawDays, Planner(s))
  {
    plans := [];
    var d := 0;
    while d < |rawDays|
      invariant 0 <= d <= |rawDays|
      invariant plans == Map(rawDays[..d], Planner(s))
    {
      var blocks := SanitizeDayBlocks(rawDays[d].blocks, s.index, s.center, s.dist);
      MapPrefix(rawDays, d, Planner(s));
      plans := plans + [blocks];
      d := d + 1;
    }
    assert rawDays[..|rawDays|] == rawDays;
  }

  function NameKey(): IndexedPlace -> string {
    (p: IndexedPlace) => Canonical(p.name)
  }

  function FallbackBlock(): IndexedPlace -> Block {
    (p: IndexedPlace) => Block("", p.name, FallbackReason)
  }

  /** The blocks of every day before the mandatory places go in. */
  function Planned(rawDays: seq<RawDay>, s: Setting): (r: seq<seq<Block>>)
    ensures |r| == |rawDays|
  {
    WithFallbacks(Map(rawDays, Planner(s)), s.fallback, NameKey(), FallbackBlock())
  }

  /** The fields of a day fixed in the first pass. */
  datatype Draft = Draft(flow: string, walkingKm: real, meals: seq<MealHalt>)

  function MealsOf(halts: seq<RawHalt>, foodIndex: FoodIndex): (r: seq<MealHalt>)
    requires forall i :: 0 <= i < |foodIndex.keys| ==> foodIndex.keys[i] in foodIndex.entries
    ensures |r| == |MealSlots|
  {
    seq(|MealSlots|, i requires 0 <= i < |MealSlots| => FinalMeal(ByMeal(halts, foodIndex), Values(foodIndex), i))
  }

  function DraftOf(raw: RawDay, planned: seq<Block>, index: PlaceIndex, foodIndex: FoodIndex): Draft
    requires forall i :: 0 <= i < |foodIndex.keys| ==> foodIndex.keys[i] in foodIndex.entries
  {
    Draft(OrElse(Strip(raw.flow), DefaultFlow), Walking(raw.walkingKm, planned, index), MealsOf(raw.foodHalts, foodIndex))
  }

  function Drafter(index: PlaceIndex, foodIndex: FoodIndex): (nat, RawDay, seq<Block>) -> Draft
    requires forall i :: 0 <= i < |foodIndex.keys| ==> foodIndex.keys[i] in foodIndex.entries
  {
    (d: nat, raw: RawDay, planned: seq<Block>) => DraftOf(raw, planned, index, foodIndex)
  }

  /** The day fields fixed before the mandatory places go in. */
  function Drafts(rawDays: seq<RawDay>, planned: seq<seq<Block>>, index: PlaceIndex, foodIndex: FoodIndex): (r: seq<Draft>)
    requires |planned| == |rawDays|
    requires forall i :: 0 <= i < |foodIndex.keys| ==> foodIndex.keys[i] in foodIndex.entries
    ensures |r| == |rawDays|
  {
    seq(|rawDays|, d requires 0 <= d < |rawDays| => Drafter(index, foodIndex)(d, rawDays[d], planned[d]))
  }

  method DraftDay(raw: RawDay, planned: seq<Block>, index: PlaceIndex, foodIndex: FoodIndex) returns (draft: Draft)
    requires forall i :: 0 <= i < |foodIndex.keys| ==> foodIndex.keys[i] in foodIndex.entries
    ensures draft == DraftOf(raw, planned, index, foodIndex)
  {
    var meals := EnforceFourMeals(raw.foodHalts, foodIndex);
    assert meals == MealsOf(raw.foodHalts, foodIndex);
    var walking := raw.walkingKm.GetOr(3.0);
    if |planned| == 1 && IsHighEffort(PlaceOrEmpty(index, planned[0].place)) {
      walking := Max(walking, 4.5);
    } else {
      walking := Min(walking, 4.0);
    }
    draft := Draft(OrElse(Strip(raw.flow), DefaultFlow), Max(walking, 0.0), meals);
  }

  method DraftEach(rawDays: seq<RawDay>, planned: seq<seq<Block>>, index: PlaceIndex, foodIndex: FoodIndex)
    returns (drafts: seq<Draft>)
    requires |planned| == |rawDays|
    requires forall i :: 0 <= i < |foodIndex.keys| ==> foodIndex.keys[i] in foodIndex.entries
    ensures drafts == Drafts(rawDays, planned, index, foodIndex)
  {
    drafts := [];
    var d := 0;
    while d < |rawDays|
      invariant 0 <= d <= |rawDays| && |drafts| == d
      invariant forall e :: 0 <= e < d ==> drafts[e] == Drafter(index, foodIndex)(e, rawDays[e], planned[e])
    {
      var draft := DraftDay(rawDays[d], planned[d], index, foodIndex);
      Map2Step(drafts, rawDays, planned, Drafter(index, foodIndex), draft);
      drafts := drafts + [draft];
      d := d + 1;
    }
  }

  function TimedPlaces(timed: seq<TimedBlock>): seq<string> {
    Map(timed, (t: TimedBlock) => t.place)
  }

  /** A finished day: its number, the fixed window, the retimed blocks and
      their cost. */
  function FinalDay(d: nat, draft: Draft, blocks: seq<Block>, index: PlaceIndex): Day {
    DayFrom(d, draft, MapIndexed(blocks, Timer(index, |blocks|)), index)
  }

  function DayFrom(d: nat, draft: Draft, timed: seq<TimedBlock>, index: PlaceIndex): Day {
    Day(d + 1, DayWindow, draft.flow, draft.walkingKm, timed, draft.meals, DayCost(TimedPlaces(timed), index))
  }

  function Finisher(index: PlaceIndex): (nat, Draft, seq<Block>) -> Day {
    (d: nat, draft: Draft, blocks: seq<Block>) => FinalDay(d, draft, blocks, index)
  }

  function Days(drafts: seq<Draft>, finals: seq<seq<Block>>, index: PlaceIndex): (r: seq<Day>)
    requires |drafts| == |finals|
    ensures |r| == |finals|
  {
    seq(|finals|, d requires 0 <= d < |finals| => Finisher(index)(d, drafts[d], finals[d]))
  }

  /** The last loop over the days: retime each day's blocks and cost it. */
  method FinishDays(drafts: seq<Draft>, finals: seq<seq<Block>>, index: PlaceIndex) returns (days: seq<Day>)
    requires |drafts| == |finals|
    ensures days == Days(drafts, finals, index)
  {
    days := [];
    var d := 0;
    while d < |finals|
      invariant 0 <= d <= |finals| && |days| == d
      invariant forall e :: 0 <= e < d ==> days[e] == Finisher(index)(e, drafts[e], finals[e])
    {
      var timed := ApplyVisitDurations(finals[d], index);
      var day := DayFrom(d, drafts[d], timed, index);
      assert day == Finisher(index)(d, drafts[d], finals[d]);
      Map2Step(days, drafts, finals, Finisher(index), day);
      days := days + [day];
      d := d + 1;
    }
  }

  function CostOf(): Day -> real {
    (day: Day) => day.cost
  }

  function Count(numDays: int): nat {
    if numDays > 0 then numDays else 0
  }

  function SettingOf(index: PlaceIndex, dist: (Point, Point) -> real): Setting
    requires forall i :: 0 <= i < |index.keys| ==> index.keys[i] in index.entries
  {
    Setting(index, MeanLatLng(Values(index)), dist, FallbackOrder(index))
  }

  /** The days as `_sanitize_itinerary` returns them, for
      `mandatory_top_places or []` as `mandatory`. */
  function SanitizedDays(raws: seq<RawDay>, index: PlaceIndex, foodIndex: FoodIndex, count: nat,
                         mandatory: seq<string>, dist: (Point, Point) -> real): (r: seq<Day>)
    requires forall i :: 0 <= i < |index.keys| ==> index.keys[i] in index.entries
    requires forall i :: 0 <= i < |foodIndex.keys| ==> foodIndex.keys[i] in foodIndex.entries
    ensures |r| == count
  {
    var rawDays := RawDays(raws, count);
    var planned := Planned(rawDays, SettingOf(index, dist));
    Days(Drafts(rawDays, planned, index, foodIndex), InsertMandatory(planned, mandatory, index), index)
  }

  /** The whole plan: title, hotel, days, total cost and budget verdict. */
  function Sanitized(raw: RawItinerary, index: PlaceIndex, foodIndex: FoodIndex, city: string, numDays: int,
                     budget: real, mandatory: seq<string>, dist: (Point, Point) -> real): Plan
    requires forall i :: 0 <= i < |index.keys| ==> index.keys[i] in index.entries
    requires forall i :: 0 <= i < |foodIndex.keys| ==> foodIndex.keys[i] in foodIndex.entries
  {
    var days := SanitizedDays(raw.days, index, foodIndex, Count(numDays), mandatory, dist);
    var total := Total(Map(days, CostOf()));
    Plan(OrElse(Strip(raw.title), city + " Human-Realistic Route Plan"),
         Hotel(OrElse(Strip(raw.hotelArea), city + " Central"), OrElse(Strip(raw.hotelReason), DefaultHotelReason)),
         days, total, total <= budget)
  }

  // ---------------------------------------------------------------------
  // The procedure
  // ---------------------------------------------------------------------

  /** The days of `_sanitize_itinerary`: sanitize each proposed day, give
      the empty ones fallback places, fix flow, walking and meals, put the
      mandatory places in, then retime and cost every day. */
  method SanitizeDays(raws: seq<RawDay>, index: PlaceIndex, foodIndex: FoodIndex, count: nat,
                      mandatory: seq<string>, dist: (Point, Point) -> real) returns (out: seq<Day>)
    requires forall i :: 0 <= i < |index.keys| ==> index.keys[i] in index.entries
    requires forall i :: 0 <= i < |foodIndex.keys| ==> foodIndex.keys[i] in foodIndex.entries
    ensures out == SanitizedDays(raws, index, foodIndex, count, mandatory, dist)
  {
    var values := Values(index);
    var s := Setting(index, MeanLatLng(values), dist, SortDesc(values, RatingKey()));
    assert s == SettingOf(index, dist);
    var rawDays := RawDays(raws, count);
    var plans := PlanEachDay(rawDays, s);
    var planned := ApplyFallbacks(plans, s.fallback, NameKey(), FallbackBlock());
    assert planned == Planned(rawDays, s);
    var drafts := DraftEach(rawDays, planned, index, foodIndex);
    var finals := PlaceMandatory(planned, mandatory, index);
    out := FinishDays(drafts, finals, index);
  }

  /** The mandatory places go into the days held in a list, as the source
      updates `days` in place. */
  method PlaceMandatory(planned: seq<seq<Block>>, mandatory: seq<string>, index: PlaceIndex)
    returns (finals: seq<seq<Block>>)
    ensures finals == InsertMandatory(planned, mandatory, index)
  {
    var days := new seq<Block>[|planned|](d requires 0 <= d < |planned| => planned[d]);
    assert days[..] == planned;
    InsertMandatoryPlaces(days, mandatory, index);
    finals := days[..];
  }

  /** `_sanitize_itinerary`. The distance is a parameter, as for the day
      plans. */
  method SanitizeItinerary(raw: RawItinerary, index: PlaceIndex, foodIndex: FoodIndex, city: string, numDays: int,
                           budget: real, mandatory: seq<string>, dist: (Point, Point) -> real) returns (plan: Plan)
    requires forall i :: 0 <= i < |index.keys| ==> index.keys[i] in index.entries
    requires forall i :: 0 <= i < |foodIndex.keys| ==> foodIndex.keys[i] in foodIndex.entries
    ensures plan == Sanitized(raw, index, foodIndex, city, numDays, budget, mandatory, dist)
  {
    var days := SanitizeDays(raw.days, index, foodIndex, Count(numDays), mandatory, dist);
    var total := Total(Map(days, CostOf()));
    plan := Plan(OrElse(Strip(raw.title), city + " Human-Realistic Route Plan"),
                 Hotel(OrElse(Strip(raw.hotelArea), city + " Central"), OrElse(Strip(raw.hotelReason), DefaultHotelReason)),
                 days, total, total <= budget);
  }

  // ---------------------------------------------------------------------
  // What the repaired plan guarantees
  // ---------------------------------------------------------------------

  /** The fallback picks of the days. */
  function FallbackPicks(rawDays: seq<RawDay>, s: Setting): (r: seq<Option<nat>>)
    ensures |r| == |rawDays|
  {
    Picks(Empties(Map(rawDays, Planner(s))), s.fallback, NameKey(), Cursor(0, {}))
  }

  /** A planned day holds at most four blocks: a day the sanitizer left
      non-empty keeps its plan, and a day that took a fallback holds that
      one candidate alone. */
  lemma PlannedDay(rawDays: seq<RawDay>, s: Setting, d: nat)
    requires d < |rawDays|
    ensures |Planned(rawDays, s)[d]| <= 4
    ensures Planner(s)(rawDays[d]) != [] ==> Planned(rawDays, s)[d] == Planner(s)(rawDays[d])
    ensures FallbackPicks(rawDays, s)[d].None? ==> Planned(rawDays, s)[d] == Planner(s)(rawDays[d])
    ensures var p := FallbackPicks(rawDays, s)[d];
      p.Some? ==> (Planner(s)(rawDays[d]) == [] && p.value < |s.fallback|
                   && Planned(rawDays, s)[d] == [FallbackBlock()(s.fallback[p.value])])
  {
    var plans := Map(rawDays, Planner(s));
    WithFallbacksDays(plans, s.fallback, NameKey(), FallbackBlock(), d);
    if plans[d] != [] {
      DayPlanBlocks(rawDays[d].blocks, s.index, s.center, s.dist, 0);
    }
  }

  /** Fallback places go to the empty days best rated first and never
      twice: of two days that took one, the earlier has the better or equal
      rating and the two have different canonical names; each is an
      indexed place. */
  lemma FallbacksRankedAndFresh(rawDays: seq<RawDay>, index: PlaceIndex, dist: (Point, Point) -> real, d: nat, e: nat)
    requires forall i :: 0 <= i < |index.keys| ==> index.keys[i] in index.entries
    requires d < e < |rawDays|
    requires FallbackPicks(rawDays, SettingOf(index, dist))[d].Some?
    requires FallbackPicks(rawDays, SettingOf(index, dist))[e].Some?
    ensures var xs, picks := FallbackOrder(index), FallbackPicks(rawDays, SettingOf(index, dist));
      picks[d].value < picks[e].value < |xs|
      && xs[picks[d].value].rating >= xs[picks[e].value].rating
      && Canonical(xs[picks[d].value].name) != Canonical(xs[picks[e].value].name)
      && xs[picks[d].value] in Values(index) && xs[picks[e].value] in Values(index)
  {
    var s := SettingOf(index, dist);
    var xs, picks := FallbackOrder(index), FallbackPicks(rawDays, s);
    var empties := Empties(Map(rawDays, Planner(s)));
    PicksNeverRepeat(empties, xs, NameKey(), Cursor(0, {}), d, e);
    FallbackOrderRanked(index, Key(0.0, 0.0));
    assert xs[picks[d].value] in multiset(xs) && xs[picks[e].value] in multiset(xs);
  }

  /** What every finished day holds, from its draft and its final blocks. */
  lemma DaysShape(drafts: seq<Draft>, finals: seq<seq<Block>>, index: PlaceIndex, d: nat)
    requires |drafts| == |finals| && d < |finals|
    ensures var day := Days(drafts, finals, index)[d];
      day.day == d + 1 && day.window == DayWindow
      && day.flow == drafts[d].flow && day.walkingKm == drafts[d].walkingKm && day.meals == drafts[d].meals
      && |day.blocks| == |finals[d]|
      && (forall k :: 0 <= k < |day.blocks| ==> day.blocks[k].place == finals[d][k].place)
      && day.cost == DayCost(TimedPlaces(day.blocks), index)
  {
    var timed := MapIndexed(finals[d], Timer(index, |finals[d]|));
    assert Days(drafts, finals, index)[d] == Finisher(index)(d, drafts[d], finals[d]);
    assert Finisher(index)(d, drafts[d], finals[d]) == FinalDay(d, drafts[d], finals[d], index);
    forall k | 0 <= k < |timed|
      ensures timed[k].place == finals[d][k].place
    {
      RetimingKeepsBlocks(finals[d], index, k);
    }
  }

  /** Each draft has four meals and a walking estimate that is not
      negative. */
  lemma DraftsShape(rawDays: seq<RawDay>, planned: seq<seq<Block>>, index: PlaceIndex, foodIndex: FoodIndex, d: nat)
    requires |planned| == |rawDays| && d < |rawDays|
    requires forall i :: 0 <= i < |foodIndex.keys| ==> foodIndex.keys[i] in foodIndex.entries
    ensures |Drafts(rawDays, planned, index, foodIndex)[d].meals| == 4
    ensures Drafts(rawDays, planned, index, foodIndex)[d].walkingKm >= 0.0
  {
    var draft := DraftOf(rawDays[d], planned[d], index, foodIndex);
    assert Drafter(index, foodIndex)(d, rawDays[d], planned[d]) == draft;
    assert Drafts(rawDays, planned, index, foodIndex)[d] == draft;
    WalkingBounds(rawDays[d].walkingKm, planned[d], index);
    assert |draft.meals| == |MealSlots|;
  }

  /** The planned days all hold at most four blocks. */
  lemma PlannedBounded(rawDays: seq<RawDay>, s: Setting)
    ensures forall d :: 0 <= d < |rawDays| ==> |Planned(rawDays, s)[d]| <= 4
  {
    forall d | 0 <= d < |rawDays|
      ensures |Planned(rawDays, s)[d]| <= 4
    {
      PlannedDay(rawDays, s, d);
    }
  }

  /** `_sanitize_itinerary` yields one day per requested day (none for a
      count below one), numbered from 1, each in the fixed window with four
      meals, at most four blocks and a walking estimate that is not
      negative, costed by `_day_cost`; the trip is within budget exactly
      when the total of the day costs is at most the budget. */
  lemma SanitizedShape(raw: RawItinerary, index: PlaceIndex, foodIndex: FoodIndex, city: string, numDays: int,
                       budget: real, mandatory: seq<string>, dist: (Point, Point) -> real)
    requires forall i :: 0 <= i < |index.keys| ==> index.keys[i] in index.entries
    requires forall i :: 0 <= i < |foodIndex.keys| ==> foodIndex.keys[i] in foodIndex.entries
    ensures var plan := Sanitized(raw, index, foodIndex, city, numDays, budget, mandatory, dist);
      |plan.days| == (if numDays > 0 then numDays else 0)
      && plan.totalCost == Total(Map(plan.days, CostOf()))
      && (plan.withinBudget <==> plan.totalCost <= budget)
    ensures var plan := Sanitized(raw, index, foodIndex, city, numDays, budget, mandatory, dist);
      forall d :: 0 <= d < |plan.days| ==>
        plan.days[d].day == d + 1 && plan.days[d].window == DayWindow && |plan.days[d].meals| == 4
        && |plan.days[d].blocks| <= 4 && plan.days[d].walkingKm >= 0.0
        && plan.days[d].cost == DayCost(TimedPlaces(plan.days[d].blocks), index)
  {
    SanitizedDaysShape(raw.days, index, foodIndex, Count(numDays), mandatory, dist);
  }

  lemma SanitizedDaysShape(raws: seq<RawDay>, index: PlaceIndex, foodIndex: FoodIndex, count: nat,
                           mandatory: seq<string>, dist: (Point, Point) -> real)
    requires forall i :: 0 <= i < |index.keys| ==> index.keys[i] in index.entries
    requires forall i :: 0 <= i < |foodIndex.keys| ==> foodIndex.keys[i] in foodIndex.entries
    ensures var days := SanitizedDays(raws, index, foodIndex, count, mandatory, dist);
      forall d :: 0 <= d < |days| ==>
        days[d].day == d + 1 && days[d].window == DayWindow && |days[d].meals| == 4
        && |days[d].blocks| <= 4 && days[d].walkingKm >= 0.0
        && days[d].cost == DayCost(TimedPlaces(days[d].blocks), index)
  {
    var rawDays := RawDays(raws, count);
    var planned := Planned(rawDays, SettingOf(index, dist));
    var drafts := Drafts(rawDays, planned, index, foodIndex);
    var finals := InsertMandatory(planned, mandatory, index);
    PlannedBounded(rawDays, SettingOf(index, dist));
    InsertMandatoryBounded(planned, mandatory, index);
    var days := Days(drafts, finals, index);
    forall d | 0 <= d < |days|
      ensures days[d].day == d + 1 && days[d].window == DayWindow && |days[d].meals| == 4
           && |days[d].blocks| <= 4 && days[d].walkingKm >= 0.0
           && days[d].cost == DayCost(TimedPlaces(days[d].blocks), index)
    {
      DaysShape(drafts, finals, index, d);
      DraftsShape(rawDays, planned, index, foodIndex, d);
    }
  }

  /** Days costed by `_day_cost`, with no negative ticket price, each cost
      at least the allowance. */
  lemma DayCostsFloor(days: seq<Day>, index: PlaceIndex)
    requires forall c :: c in index.entries ==> index.entries[c].ticketPrice >= 0.0
    requires forall d :: 0 <= d < |days| ==> days[d].cost == DayCost(TimedPlaces(days[d].blocks), index)
    ensures forall d :: 0 <= d < |days| ==> days[d].cost >= DailyAllowance
  {
    forall d | 0 <= d < |days|
      ensures days[d].cost >= DailyAllowance
    {
      DayCostAtLeastAllowance(TimedPlaces(days[d].blocks), index);
    }
  }

  /** Days that each cost at least the allowance cost together at least
      the allowance per day. */
  lemma TotalCostFloor(days: seq<Day>)
    requires forall d :: 0 <= d < |days| ==> days[d].cost >= DailyAllowance
    ensures Total(Map(days, CostOf())) >= DailyAllowance * |days| as real
  {
    TotalAtLeast(Map(days, CostOf()), DailyAllowance);
  }

  /** With no negative ticket price every day costs at least the 1400
      allowance, so the trip costs at least 1400 per day. */
  lemma SanitizedCostFloor(raw: RawItinerary, index: PlaceIndex, foodIndex: FoodIndex, city: string, numDays: int,
                           budget: real, mandatory: seq<string>, dist: (Point, Point) -> real)
    requires forall i :: 0 <= i < |index.keys| ==> index.keys[i] in index.entries
    requires forall i :: 0 <= i < |foodIndex.keys| ==> foodIndex.keys[i] in foodIndex.entries
    requires forall c :: c in index.entries ==> index.entries[c].ticketPrice >= 0.0
    ensures var plan := Sanitized(raw, index, foodIndex, city, numDays, budget, mandatory, dist);
      (forall d :: 0 <= d < |plan.days| ==> plan.days[d].cost >= DailyAllowance)
      && plan.totalCost >= DailyAllowance * |plan.days| as real
  {
    SanitizedShape(raw, index, foodIndex, city, numDays, budget, mandatory, dist);
    var days := Sanitized(raw, index, foodIndex, city, numDays, budget, mandatory, dist).days;
    DayCostsFloor(days, index);
    TotalCostFloor(days);
  }

  /** The block names a place of the index. */
  function Indexed(index: PlaceIndex): Block -> bool {
    (b: Block) => Lookup(index, b.place).Some?
  }

  /** In a well-keyed index every value names an indexed place. */
  lemma ValueAtIndexed(index: PlaceIndex, j: nat)
    requires WellKeyed(index) && j < |index.keys|
    ensures Lookup(index, Values(index)[j].name).Some?
  {
    var c := index.keys[j];
    assert c in index.entries;
    LookupStoredName(index, c);
  }

  /** In a well-keyed index every place of a permutation of the values
      names an indexed place. */
  lemma CandidatesIndexed(index: PlaceIndex, xs: seq<IndexedPlace>)
    requires WellKeyed(index)
    requires multiset(xs) == multiset(Values(index))
    ensures forall i :: 0 <= i < |xs| ==> Lookup(index, xs[i].name).Some?
  {
    forall i | 0 <= i < |xs|
      ensures Lookup(index, xs[i].name).Some?
    {
      CandidateIndexed(index, xs, i);
    }
  }

  lemma CandidateIndexed(index: PlaceIndex, xs: seq<IndexedPlace>, i: nat)
    requires WellKeyed(index)
    requires multiset(xs) == multiset(Values(index)) && i < |xs|
    ensures Lookup(index, xs[i].name).Some?
  {
    var j := PermutationIndex(xs, Values(index), i);
    ValueAtIndexed(index, j);
  }

  /** With a well-keyed index and fallback candidates from it, every
      planned block names an indexed place. */
  lemma PlannedIndexed(rawDays: seq<RawDay>, s: Setting)
    requires WellKeyed(s.index)
    requires forall i :: 0 <= i < |s.fallback| ==> Lookup(s.index, s.fallback[i].name).Some?
    ensures var planned := Planned(rawDays, s);
      forall d, k :: 0 <= d < |planned| && 0 <= k < |planned[d]| ==> Indexed(s.index)(planned[d][k])
  {
    var planned := Planned(rawDays, s);
    forall d, k | 0 <= d < |planned| && 0 <= k < |planned[d]|
      ensures Indexed(s.index)(planned[d][k])
    {
      PlannedDayIndexed(rawDays, s, d, k);
    }
  }

  lemma PlannedDayIndexed(rawDays: seq<RawDay>, s: Setting, d: nat, k: nat)
    requires WellKeyed(s.index)
    requires forall i :: 0 <= i < |s.fallback| ==> Lookup(s.index, s.fallback[i].name).Some?
    requires d < |rawDays| && k < |Planned(rawDays, s)[d]|
    ensures Lookup(s.index, Planned(rawDays, s)[d][k].place).Some?
  {
    PlannedDay(rawDays, s, d);
    var p := FallbackPicks(rawDays, s)[d];
    if p.Some? {
      assert Planned(rawDays, s)[d][k].place == s.fallback[p.value].name;
    } else {
      DayPlanBlocks(rawDays[d].blocks, s.index, s.center, s.dist, k);
    }
  }

  /** Retiming and costing keep every block's place. */
  lemma DaysKeep(drafts: seq<Draft>, finals: seq<seq<Block>>, index: PlaceIndex, ok: string -> bool)
    requires |drafts| == |finals|
    requires forall d, k :: 0 <= d < |finals| && 0 <= k < |finals[d]| ==> ok(finals[d][k].place)
    ensures var days := Days(drafts, finals, index);
      forall d, k :: 0 <= d < |days| && 0 <= k < |days[d].blocks| ==> ok(days[d].blocks[k].place)
  {
    var days := Days(drafts, finals, index);
    forall d, k | 0 <= d < |days| && 0 <= k < |days[d].blocks|
      ensures ok(days[d].blocks[k].place)
    {
      DaysShape(drafts, finals, index, d);
    }
  }

  /** In a well-keyed index, every block of every day of the repaired plan
      names a place of the index: the proposal's unknown places are gone,
      and the fallbacks and the mandatory places come from the index. */
  lemma SanitizedBlocksIndexed(raw: RawItinerary, index: PlaceIndex, foodIndex: FoodIndex, city: string, numDays: int,
                               budget: real, mandatory: seq<string>, dist: (Point, Point) -> real)
    requires WellKeyed(index)
    requires forall i :: 0 <= i < |foodIndex.keys| ==> foodIndex.keys[i] in foodIndex.entries
    ensures var plan := Sanitized(raw, index, foodIndex, city, numDays, budget, mandatory, dist);
      forall d, k :: 0 <= d < |plan.days| && 0 <= k < |plan.days[d].blocks| ==>
        Lookup(index, plan.days[d].blocks[k].place).Some?
  {
    SanitizedDaysIndexed(raw.days, index, foodIndex, Count(numDays), mandatory, dist);
  }

  lemma SanitizedDaysIndexed(raws: seq<RawDay>, index: PlaceIndex, foodIndex: FoodIndex, count: nat,
                             mandatory: seq<string>, dist: (Point, Point) -> real)
    requires WellKeyed(index)
    requires forall i :: 0 <= i < |foodIndex.keys| ==> foodIndex.keys[i] in foodIndex.entries
    ensures var days := SanitizedDays(raws, index, foodIndex, count, mandatory, dist);
      forall d, k :: 0 <= d < |days| && 0 <= k < |days[d].blocks| ==> Lookup(index, days[d].blocks[k].place).Some?
  {
    var s := SettingOf(index, dist);
    var rawDays := RawDays(raws, count);
    var planned := Planned(rawDays, s);
    CandidatesIndexed(index, s.fallback);
    PlannedIndexed(rawDays, s);
    MandatoryBlocksIndexed(index);
    InsertMandatoryKeeps(planned, mandatory, index, Indexed(index));
    DaysKeep(Drafts(rawDays, planned, index, foodIndex), InsertMandatory(planned, mandatory, index), index,
             (place: string) => Lookup(index, place).Some?);
  }

  lemma MandatoryBlocksIndexed(index: PlaceIndex)
    requires WellKeyed(index)
    ensures forall c :: c in index.entries ==> Indexed(index)(MandatoryBlock(index, c))
  {
    forall c | c in index.entries
      ensures Indexed(index)(MandatoryBlock(index, c))
    {
      MandatoryBlockIndexed(index, c);
    }
  }
}
