/** The response normalisation of the front end (`services/api.ts`): JSON
    values read defensively, time ranges turned into minutes, each day's
    places and meals merged into one timeline sorted by start, and the
    defaults filled in for every missing field. */
module Api {
  import opened Wrappers
  import opened Text
  import opened Seqs
  import opened Sorting
  import TimeSlots

  // ---------------------------------------------------------------------
  // JavaScript values
  // ---------------------------------------------------------------------

  /** A decoded JSON value as JavaScript sees it. `Num` is a finite number;
      `NaN` and `Infinity` are the other values of type number. */
  datatype Js =
    | Undefined
    | Null
    | Bool(b: bool)
    | Num(n: real)
    | NaN
    | Infinity(negative: bool)
    | Str(s: string)
    | Arr(items: seq<Js>)
    | Obj(fields: map<string, Js>)

  /** `Number.MAX_SAFE_INTEGER`. */
  const MaxSafeInteger: real := 9007199254740991.0

  /** The properties of a plain object. */
  type Record = map<string, Js>

  /** `r.key`: `undefined` when the property is absent. */
  function Prop(r: Record, key: string): Js {
    if key in r then r[key] else Undefined
  }

  /** `v.key`: the property of an object, `undefined` for anything else. */
  function Get(v: Js, key: string): (r: Js)
    ensures !v.Obj? ==> r == Undefined
  {
    if v.Obj? then Prop(v.fields, key) else Undefined
  }

  /** `a ?? b`. */
  function Coalesce(a: Js, b: Js): (r: Js)
    ensures !r.Undefined? && !r.Null? ==> r == a || r == b
    ensures !a.Undefined? && !a.Null? ==> r == a
  {
    if a.Undefined? || a.Null? then b else a
  }

  /** The own properties a spread `...v` copies: those of an object, none
      for anything else. */
  function Fields(v: Js): map<string, Js> {
    if v.Obj? then v.fields else map[]
  }

  /** `toArray`. */
  function ToArray(v: Js): seq<Js> {
    if v.Arr? then v.items else []
  }

  /** `toStringValue`. */
  function ToStringValue(v: Js, fallback: string): (r: string)
    ensures v.Str? ==> r == v.s
    ensures !v.Str? ==> r == fallback
  {
    if v.Str? then v.s else fallback
  }

  /** `toNumberValue`: a finite number, else the fallback. */
  function ToNumberValue(v: Js, fallback: real): (r: real)
    ensures v.Num? ==> r == v.n
    ensures !v.Num? ==> r == fallback
  {
    if v.Num? then v.n else fallback
  }

  /** `toBooleanValue`. */
  function ToBooleanValue(v: Js, fallback: bool): (r: bool)
    ensures v.Bool? ==> r == v.b
    ensures !v.Bool? ==> r == fallback
  {
    if v.Bool? then v.b else fallback
  }

  // ---------------------------------------------------------------------
  // Number(string)
  // ---------------------------------------------------------------------

  /** Digits with at most one decimal point and at least one digit. */
  function UnsignedDecimal(t: string): (r: Option<real>)
    ensures t != [] && AllDigits(t) ==> r == Some(DigitsValue(t) as real)
    ensures r.Some? ==> r.value >= 0.0
  {
    var whole := BeforeSep(t, '.');
    if |whole| == |t| then
      if t != [] && AllDigits(t) then Some(DigitsValue(t) as real) else None
    else
      assert t[|whole|] == '.';
      var frac := t[|whole| + 1..];
      if AllDigits(whole) && AllDigits(frac) && (whole != [] || frac != []) then
        Some(DigitsValue(whole) as real + FractionValue(frac))
      else None
  }

  /** `Number(s)` on a string, when the result is finite: the trimmed text
      is empty (0) or a signed decimal; `None` stands for NaN and the
      infinities. */
  function JsNumber(s: string): (r: Option<real>)
    ensures AllDigits(JsTrim(s)) ==> r == Some(DigitsValue(JsTrim(s)) as real)
  {
    var t := JsTrim(s);
    if t == [] then Some(0.0)
    else if t[0] == '-' then
      match UnsignedDecimal(t[1..])
      case Some(x) => Some(-x)
      case None => None
    else if t[0] == '+' then UnsignedDecimal(t[1..])
    else UnsignedDecimal(t)
  }

  lemma DigitsJsTrimmed(s: string)
    requires AllDigits(s)
    ensures JsTrim(s) == s
  {
    if s != [] {
      assert !IsJsSpace(s[0]) && !IsJsSpace(s[|s| - 1]);
    }
    JsTrimNoop(s);
  }

  /** `Number` reads back the decimal text of a natural number. */
  lemma JsNumberOfNat(n: nat)
    ensures JsNumber(NatToString(n)) == Some(n as real)
  {
    DigitsJsTrimmed(NatToString(n));
  }

  // ---------------------------------------------------------------------
  // parseStartTime / parseEndTime
  // ---------------------------------------------------------------------

  /** `s.split(sep)[1]`: the piece after the first separator, up to the
      next; `None` (`undefined`) when there is no separator. */
  function SecondPiece(s: string, sep: char): Option<string> {
    var head := BeforeSep(s, sep);
    if |head| == |s| then None
    else Some(BeforeSep(s[|head| + 1..], sep))
  }

  /** There is a second piece exactly when the separator occurs, and it
      is the second element of `split`. */
  lemma SecondPieceIsSplit(s: string, sep: char)
    ensures SecondPiece(s, sep).Some? <==> sep in s
    ensures SecondPiece(s, sep).Some? <==> |SplitOn(s, sep)| >= 2
    ensures SecondPiece(s, sep).Some? ==> SecondPiece(s, sep).value == SplitOn(s, sep)[1]
  {
    SplitOnHasSep(s, sep);
  }

  /** `const [h, m] = t.split(":").map(Number)`, then `h * 60 + m` when
      both are finite; a missing minute part is `undefined`, hence NaN. */
  function ClockMinutes(t: string): Option<real> {
    match SecondPiece(t, ':')
    case None => None
    case Some(mText) => HoursAndMinutes(JsNumber(BeforeSep(t, ':')), JsNumber(mText))
  }

  /** `h * 60 + m` when both are finite. */
  function HoursAndMinutes(h: Option<real>, m: Option<real>): Option<real> {
    if h.Some? && m.Some? then Some(h.value * 60.0 + m.value) else None
  }

  /** The minutes of a clock text, or `Number.MAX_SAFE_INTEGER` when it is
      blank or not two finite numbers. */
  function MinutesOr(t: string): (r: real)
    ensures JsTrim(t) == [] ==> r == MaxSafeInteger
  {
    var c := JsTrim(t);
    if c == [] then MaxSafeInteger else ClockMinutes(c).GetOr(MaxSafeInteger)
  }

  /** `parseStartTime`: the clock before the first `-`. */
  function ParseStartTime(raw: string): (r: real)
    ensures JsTrim(BeforeSep(raw, '-')) == [] ==> r == MaxSafeInteger
  {
    MinutesOr(BeforeSep(raw, '-'))
  }

  /** `parseEndTime`: the clock after the first `-`; none without one. */
  function ParseEndTime(raw: string): real {
    match SecondPiece(raw, '-')
    case None => MaxSafeInteger
    case Some(e) => MinutesOr(e)
  }

  /** A start without a `:` is not a time. */
  lemma StartWithoutColon(raw: string)
    requires ':' !in JsTrim(BeforeSep(raw, '-'))
    ensures ParseStartTime(raw) == MaxSafeInteger
  {
    SecondPieceIsSplit(JsTrim(BeforeSep(raw, '-')), ':');
  }

  /** A range without a `-` has no end. */
  lemma EndWithoutDash(raw: string)
    requires '-' !in raw
    ensures ParseEndTime(raw) == MaxSafeInteger
  {
    SecondPieceIsSplit(raw, '-');
  }

  /** `Number` reads a string of decimal digits as their value. */
  lemma JsNumberOfDigits(d: string)
    requires AllDigits(d)
    ensures JsNumber(d) == Some(DigitsValue(d) as real)
  {
    DigitsJsTrimmed(d);
  }

  /** `"H:M".split(":")` is `[H, M]` when neither part holds a `:`. */
  lemma ClockPieces(h: string, m: string)
    requires ':' !in h && ':' !in m
    ensures BeforeSep(h + ":" + m, ':') == h
    ensures SecondPiece(h + ":" + m, ':') == Some(m)
  {
    var c := h + ":" + m;
    TimeSlots.BeforeSepAt(h, ':', m);
    assert c[|h| + 1..] == m;
    assert BeforeSep(m, ':') == m;
  }

  /** A clock whose two pieces are finite numbers reads as hours times 60
      plus minutes. */
  lemma ClockMinutesOf(t: string, h: string, m: string)
    requires BeforeSep(t, ':') == h && SecondPiece(t, ':') == Some(m)
    ensures ClockMinutes(t) == HoursAndMinutes(JsNumber(h), JsNumber(m))
  {
  }

  /** A clock whose two pieces are finite numbers reads as hours times 60
      plus minutes. */
  lemma ClockOfPieces(t: string, h: string, m: string, a: real, b: real)
    requires BeforeSep(t, ':') == h && SecondPiece(t, ':') == Some(m)
    requires JsNumber(h) == Some(a) && JsNumber(m) == Some(b)
    ensures ClockMinutes(t) == Some(a * 60.0 + b)
  {
    ClockMinutesOf(t, h, m);
  }

  /** `"H:M"` with decimal digits reads as `H * 60 + M` minutes. */
  lemma ClockOfDigits(h: string, m: string)
    requires h != [] && m != [] && AllDigits(h) && AllDigits(m)
    ensures MinutesOr(h + ":" + m) == (DigitsValue(h) * 60 + DigitsValue(m)) as real
  {
    var c := h + ":" + m;
    var a, b := DigitsValue(h) as real, DigitsValue(m) as real;
    assert BeforeSep(c, ':') == h && SecondPiece(c, ':') == Some(m) by {
      assert ':' !in h && ':' !in m;
      ClockPieces(h, m);
    }
    assert JsNumber(h) == Some(a) by {
      JsNumberOfDigits(h);
    }
    assert JsNumber(m) == Some(b) by {
      JsNumberOfDigits(m);
    }
    assert ClockMinutes(c) == Some(a * 60.0 + b) by {
      ClockOfPieces(c, h, m, a, b);
    }
    assert JsTrim(c) == c by {
      assert !IsJsSpace(c[0]) && !IsJsSpace(c[|c| - 1]);
      JsTrimNoop(c);
    }
  }

  /** So a range starting `"H:M-"` starts at `H * 60 + M`, whatever
      follows. */
  lemma StartOfDigits(h: string, m: string, rest: string)
    requires h != [] && m != [] && AllDigits(h) && AllDigits(m)
    ensures ParseStartTime(h + ":" + m) == (DigitsValue(h) * 60 + DigitsValue(m)) as real
    ensures ParseStartTime(h + ":" + m + "-" + rest) == (DigitsValue(h) * 60 + DigitsValue(m)) as real
  {
    var c := h + ":" + m;
    assert '-' !in c;
    assert BeforeSep(c, '-') == c;
    TimeSlots.BeforeSepAt(c, '-', rest);
    ClockOfDigits(h, m);
  }

  /** A clock written by the planner reads back as its minutes. */
  lemma ClockReadsBack(minutes: nat)
    ensures MinutesOr(TimeSlots.Clock(minutes)) == minutes as real
  {
    var h, m := Pad2(minutes / 60), Pad2(minutes % 60);
    assert TimeSlots.Clock(minutes) == h + ":" + m;
    ClockOfDigits(h, m);
  }

  /** The piece of a range after its `-` is its end clock. */
  lemma RangeEndPiece(a: nat, e: nat)
    ensures SecondPiece(TimeSlots.Clock(a) + "-" + TimeSlots.Clock(e), '-') == Some(TimeSlots.Clock(e))
  {
    var x, y := TimeSlots.Clock(a), TimeSlots.Clock(e);
    var slot := x + "-" + y;
    TimeSlots.BeforeSepAt(x, '-', y);
    assert slot[|x| + 1..] == y;
    assert BeforeSep(y, '-') == y;
  }

  /** The time ranges the planner writes (`_format_slot`, start clock and
      end clock around a `-`) read back as the start and end minutes they
      were written from. */
  lemma RangeRoundTrip(a: nat, e: nat)
    ensures ParseStartTime(TimeSlots.Clock(a) + "-" + TimeSlots.Clock(e)) == a as real
    ensures ParseEndTime(TimeSlots.Clock(a) + "-" + TimeSlots.Clock(e)) == e as real
  {
    RangeStartReadsBack(a, e);
    RangeEndReadsBack(a, e);
  }

  lemma RangeStartReadsBack(a: nat, e: nat)
    ensures ParseStartTime(TimeSlots.Clock(a) + "-" + TimeSlots.Clock(e)) == a as real
  {
    TimeSlots.BeforeSepAt(TimeSlots.Clock(a), '-', TimeSlots.Clock(e));
    ClockReadsBack(a);
  }

  lemma RangeEndReadsBack(a: nat, e: nat)
    ensures ParseEndTime(TimeSlots.Clock(a) + "-" + TimeSlots.Clock(e)) == e as real
  {
    RangeEndPiece(a, e);
    EndOfClock(TimeSlots.Clock(a) + "-" + TimeSlots.Clock(e), e);
  }

  /** A range whose second piece is a clock ends at that clock's minutes. */
  lemma EndOfClock(raw: string, minutes: nat)
    requires SecondPiece(raw, '-') == Some(TimeSlots.Clock(minutes))
    ensures ParseEndTime(raw) == minutes as real
  {
    ClockReadsBack(minutes);
  }

  // ---------------------------------------------------------------------
  // Timeline items
  // ---------------------------------------------------------------------

  // Property names and default texts of the normalised response.
  const KTime: string := "time"
  const KStartMinutes: string := "start_minutes"
  const KEndMinutes: string := "end_minutes"
  const KPlaceName: string := "place_name"
  const KPlace: string := "place"
  const KReasonForTimeChoice: string := "reason_for_time_choice"
  const KImageUrl: string := "image_url"
  const KMealType: string := "meal_type"
  const KOutlet: string := "outlet"
  const KSignatureDish: string := "signature_dish"
  const KArea: string := "area"
  const KReasonSelected: string := "reason_selected"
  const KScheduleBlocks: string := "schedule_blocks"
  const KTimeline: string := "timeline"
  const KActivities: string := "activities"
  const KFoodHalts: string := "food_halts"
  const KDay: string := "day"
  const KTitle: string := "title"
  const KDayTimeWindow: string := "day_time_window"
  const KGeographicFlow: string := "geographic_flow"
  const KGeographicFlowExplanation: string := "geographic_flow_explanation"
  const KWalkingDistance: string := "walking_distance"
  const KTotalWalkingKmEstimate: string := "total_walking_km_estimate"
  const KEstimatedDayCost: string := "estimated_day_cost"
  const KDays: string := "days"
  const KDayPlans: string := "day_plans"
  const KPlan: string := "plan"
  const KSchedule: string := "schedule"
  const KItinerary: string := "itinerary"
  const KHotelRecommendation: string := "hotel_recommendation"
  const KMetadata: string := "metadata"
  const KReason: string := "reason"
  const KTotalEstimatedCost: string := "total_estimated_cost"
  const KWithinBudget: string := "within_budget"
  const DefaultPlace: string := "Planned stop"
  const DefaultTimeReason: string := "Recommended by itinerary engine."
  const DefaultMealType: string := "Meal"
  const DefaultOutlet: string := "Recommended outlet"
  const DefaultDish: string := "Chef special"
  const DefaultArea: string := "City Center"
  const DefaultFlow: string := "Optimized local flow"
  const DefaultTitle: string := "Your AI Travel Itinerary"
  const DefaultHotelArea: string := "Central Area"
  const DefaultHotelReason: string := "Chosen for connectivity and access to key places."

  /** A property of `{...base, ...over}`: the override when there is one,
      the base's otherwise. */
  lemma SpreadProp(base: Record, over: Record, k: string)
    ensures Prop(base + over, k) == if k in over then over[k] else Prop(base, k)
  {
  }

  /** `toStringValue(item.time, "")`. */
  function TimeText(item: Js): string {
    ToStringValue(Get(item, KTime), "")
  }

  /** The fields places and meals both derive from their time text. */
  function TimeFields(time: string): Record {
    map[KTime := Str(time), KStartMinutes := Num(ParseStartTime(time)), KEndMinutes := Num(ParseEndTime(time))]
  }

  /** The texts of a schedule block, each with its default. */
  function PlaceTexts(block: Js): Record {
    map[
      KPlaceName := Str(ToStringValue(Coalesce(Get(block, KPlaceName), Get(block, KPlace)), DefaultPlace)),
      KReasonForTimeChoice := Str(ToStringValue(Get(block, KReasonForTimeChoice), DefaultTimeReason)),
      KImageUrl := Str(ToStringValue(Get(block, KImageUrl), ""))]
  }

  /** The texts of a food halt, each with its default. */
  function MealTexts(halt: Js): Record {
    map[
      KMealType := Str(ToStringValue(Get(halt, KMealType), DefaultMealType)),
      KOutlet := Str(ToStringValue(Get(halt, KOutlet), DefaultOutlet)),
      KSignatureDish := Str(ToStringValue(Get(halt, KSignatureDish), DefaultDish)),
      KArea := Str(ToStringValue(Get(halt, KArea), DefaultArea)),
      KReasonSelected := Str(ToStringValue(Get(halt, KReasonSelected), ""))]
  }

  /** A schedule block: its own properties, overridden by the normalised
      time and texts. */
  function NormalizePlace(block: Js): Record {
    Fields(block) + TimeFields(TimeText(block)) + PlaceTexts(block)
  }

  /** A food halt: its own properties, overridden by the normalised time
      and texts. */
  function NormalizeMeal(halt: Js): Record {
    Fields(halt) + TimeFields(TimeText(halt)) + MealTexts(halt)
  }

  /** The properties an item's normalisation sets itself. */
  predicate IsPlaceKey(k: string) {
    k == KTime || k == KStartMinutes || k == KEndMinutes || k == KPlaceName || k == KReasonForTimeChoice || k == KImageUrl
  }

  predicate IsMealKey(k: string) {
    k == KTime || k == KStartMinutes || k == KEndMinutes
    || k == KMealType || k == KOutlet || k == KSignatureDish || k == KArea || k == KReasonSelected
  }

  /** Over base properties and texts that leave the time keys alone, the
      time fields are those read from the time text. */
  lemma TimeFieldsShow(base: Record, time: string, texts: Record)
    requires KTime !in texts && KStartMinutes !in texts && KEndMinutes !in texts
    ensures Prop(base + TimeFields(time) + texts, KTime) == Str(time)
    ensures Prop(base + TimeFields(time) + texts, KStartMinutes) == Num(ParseStartTime(time))
    ensures Prop(base + TimeFields(time) + texts, KEndMinutes) == Num(ParseEndTime(time))
  {
    SpreadProp(base + TimeFields(time), texts, KTime);
    SpreadProp(base + TimeFields(time), texts, KStartMinutes);
    SpreadProp(base + TimeFields(time), texts, KEndMinutes);
  }

  /** A normalised place carries its time text and the start and end
      minutes parsed from it. */
  lemma PlaceTimes(x: Js)
    ensures Prop(NormalizePlace(x), KTime) == Str(TimeText(x))
    ensures Prop(NormalizePlace(x), KStartMinutes) == Num(ParseStartTime(TimeText(x)))
    ensures Prop(NormalizePlace(x), KEndMinutes) == Num(ParseEndTime(TimeText(x)))
  {
    TimeFieldsShow(Fields(x), TimeText(x), PlaceTexts(x));
  }

  /** So does a normalised meal. */
  lemma MealTimes(x: Js)
    ensures Prop(NormalizeMeal(x), KTime) == Str(TimeText(x))
    ensures Prop(NormalizeMeal(x), KStartMinutes) == Num(ParseStartTime(TimeText(x)))
    ensures Prop(NormalizeMeal(x), KEndMinutes) == Num(ParseEndTime(TimeText(x)))
  {
    TimeFieldsShow(Fields(x), TimeText(x), MealTexts(x));
  }

  /** Every property a place's normalisation does not set is the raw
      block's, `undefined` included. */
  lemma PlaceKeepsRaw(x: Js, k: string)
    requires !IsPlaceKey(k)
    ensures Prop(NormalizePlace(x), k) == Get(x, k)
  {
    SpreadProp(Fields(x) + TimeFields(TimeText(x)), PlaceTexts(x), k);
    SpreadProp(Fields(x), TimeFields(TimeText(x)), k);
  }

  /** Every property a meal's normalisation does not set is the raw
      halt's. */
  lemma MealKeepsRaw(x: Js, k: string)
    requires !IsMealKey(k)
    ensures Prop(NormalizeMeal(x), k) == Get(x, k)
  {
    SpreadProp(Fields(x) + TimeFields(TimeText(x)), MealTexts(x), k);
    SpreadProp(Fields(x), TimeFields(TimeText(x)), k);
  }

  /** A place's name is its `place_name` text, else its `place` text when
      `place_name` is missing, else "Planned stop". */
  lemma PlaceName(x: Js)
    ensures Get(x, KPlaceName).Str? ==> Prop(NormalizePlace(x), KPlaceName) == Get(x, KPlaceName)
    ensures (Get(x, KPlaceName).Undefined? || Get(x, KPlaceName).Null?) && Get(x, KPlace).Str?
            ==> Prop(NormalizePlace(x), KPlaceName) == Get(x, KPlace)
    ensures !Get(x, KPlaceName).Str? && !Get(x, KPlace).Str? ==> Prop(NormalizePlace(x), KPlaceName) == Str(DefaultPlace)
  {
    SpreadProp(Fields(x) + TimeFields(TimeText(x)), PlaceTexts(x), KPlaceName);
  }

  /** A meal always has a meal type, an outlet and a signature dish as
      text, the raw ones when they are texts. */
  lemma MealLabels(x: Js, k: string)
    requires k == KMealType || k == KOutlet || k == KSignatureDish
    ensures Prop(NormalizeMeal(x), k).Str?
    ensures Get(x, k).Str? ==> Prop(NormalizeMeal(x), k) == Get(x, k)
  {
    SpreadProp(Fields(x) + TimeFields(TimeText(x)), MealTexts(x), k);
  }

  function PlaceRecord(): Js -> Record {
    b => NormalizePlace(b)
  }

  function MealRecord(): Js -> Record {
    h => NormalizeMeal(h)
  }

  /** The start of a timeline item as the comparator reads it. */
  function StartOf(item: Record): real {
    ToNumberValue(Prop(item, KStartMinutes), MaxSafeInteger)
  }

  /** Ascending start as a largest-first sort key. */
  function StartKey(): Record -> Key {
    item => Key(-StartOf(item), 0.0)
  }

  /** `[...places, ...meals].sort((a, b) => start(a) - start(b))`. */
  function Timeline(blocks: seq<Js>, halts: seq<Js>): seq<Record> {
    SortDesc(Map(blocks, PlaceRecord()) + Map(halts, MealRecord()), StartKey())
  }

  /** Every item of a timeline starts where its time text says. */
  lemma ItemStarts(x: Js)
    ensures StartOf(NormalizePlace(x)) == ParseStartTime(TimeText(x))
    ensures StartOf(NormalizeMeal(x)) == ParseStartTime(TimeText(x))
  {
    PlaceTimes(x);
    MealTimes(x);
  }

  /** The timeline holds exactly the normalised places and meals. */
  lemma TimelineIsPermutation(blocks: seq<Js>, halts: seq<Js>)
    ensures |Timeline(blocks, halts)| == |blocks| + |halts|
    ensures multiset(Timeline(blocks, halts)) == multiset(Map(blocks, PlaceRecord())) + multiset(Map(halts, MealRecord()))
  {
  }

  /** The timeline is in ascending order of start. */
  lemma TimelineSorted(blocks: seq<Js>, halts: seq<Js>)
    ensures forall i, j :: 0 <= i < j < |Timeline(blocks, halts)| ==>
              StartOf(Timeline(blocks, halts)[i]) <= StartOf(Timeline(blocks, halts)[j])
  {
    SortDescSorted(Map(blocks, PlaceRecord()) + Map(halts, MealRecord()), StartKey());
  }

  /** The sort is stable: items with the same start keep their order, so
      places come before meals starting at the same minute. */
  lemma TimelineStable(blocks: seq<Js>, halts: seq<Js>, k: Key)
    ensures WithKey(Timeline(blocks, halts), StartKey(), k)
         == WithKey(Map(blocks, PlaceRecord()), StartKey(), k) + WithKey(Map(halts, MealRecord()), StartKey(), k)
  {
    SortDescStable(Map(blocks, PlaceRecord()) + Map(halts, MealRecord()), StartKey(), k);
    WithKeyAppend(Map(blocks, PlaceRecord()), Map(halts, MealRecord()), StartKey(), k);
  }

  function AsJs(): Record -> Js {
    r => Obj(r)
  }

  // ---------------------------------------------------------------------
  // Days and the itinerary
  // ---------------------------------------------------------------------

  /** The walking distance shown: `toFixed(1)` of a positive finite
      estimate followed by " km", else "N/A". */
  function WalkingDistance(km: Js, toFixed1: real -> string): string {
    if km.Num? && km.n > 0.0 then toFixed1(km.n) + " km" else "N/A"
  }

  /** A day's schedule blocks, from the first of three keys that is set. */
  function DayBlocks(day: Js): seq<Js> {
    ToArray(Coalesce(Coalesce(Get(day, KScheduleBlocks), Get(day, KTimeline)), Get(day, KActivities)))
  }

  function DayHalts(day: Js): seq<Js> {
    ToArray(Get(day, KFoodHalts))
  }

  /** The texts and numbers of a day, each with its default. */
  function DayTexts(day: Js, index: nat, toFixed1: real -> string): Record {
    map[
      KDay := Num(ToNumberValue(Get(day, KDay), (index + 1) as real)),
      KTitle := Str(ToStringValue(Get(day, KTitle), "Day " + NatToString(index + 1))),
      KDayTimeWindow := Str(ToStringValue(Get(day, KDayTimeWindow), "")),
      KGeographicFlow := Str(ToStringValue(Coalesce(Get(day, KGeographicFlow), Get(day, KGeographicFlowExplanation)), DefaultFlow)),
      KWalkingDistance := Str(WalkingDistance(Get(day, KTotalWalkingKmEstimate), toFixed1)),
      KEstimatedDayCost := Num(ToNumberValue(Get(day, KEstimatedDayCost), 0.0))]
  }

  /** One day of `normalizeResponse`; `toFixed1` is
      `Number.prototype.toFixed(1)`. */
  function NormalizeDay(day: Js, index: nat, toFixed1: real -> string): Record {
    Fields(day) + DayTexts(day, index, toFixed1) + DayTimelineField(day)
  }

  function DayItem(toFixed1: real -> string): (nat, Js) -> Js {
    (index: nat, day: Js) => Obj(NormalizeDay(day, index, toFixed1))
  }

  /** `v && typeof v === "object" ? v : {}` as a record whose properties
      are read and spread. */
  function AsRecord(v: Js): Record {
    Fields(v)
  }

  /** The days of a raw itinerary, from the first of its four possible
      keys that is set. */
  function RawDays(itinerary: Js): seq<Js> {
    ToArray(Coalesce(Coalesce(Coalesce(Get(itinerary, KDays), Get(itinerary, KDayPlans)), Get(itinerary, KPlan)), Get(itinerary, KSchedule)))
  }

  /** The normalised fields of the itinerary. */
  function ItineraryFields(itinerary: Js, toFixed1: real -> string): Record {
    var hotel := Get(itinerary, KHotelRecommendation);
    map[
      KTitle := Str(ToStringValue(Get(itinerary, KTitle), DefaultTitle)),
      KHotelRecommendation := Obj(map[
        KArea := Str(ToStringValue(Get(hotel, KArea), DefaultHotelArea)),
        KReason := Str(ToStringValue(Get(hotel, KReason), DefaultHotelReason))]),
      KDays := Arr(MapIndexed(RawDays(itinerary), DayItem(toFixed1))),
      KTotalEstimatedCost := Num(ToNumberValue(Get(itinerary, KTotalEstimatedCost), 0.0)),
      KWithinBudget := Bool(ToBooleanValue(Get(itinerary, KWithinBudget), false))]
  }

  function NormalizeItinerary(itinerary: Js, toFixed1: real -> string): Record {
    AsRecord(itinerary) + ItineraryFields(itinerary, toFixed1)
  }

  /** `normalizeResponse`. */
  function NormalizeResponse(payload: Js, toFixed1: real -> string): Js {
    var metadata := Get(payload, KMetadata);
    Obj(map[
      KItinerary := Obj(NormalizeItinerary(Get(payload, KItinerary), toFixed1)),
      KMetadata := if metadata.Obj? || metadata.Arr? then metadata else Obj(map[])])
  }

  /** A property of `{...base, ...mid, ...top}` that only `mid` sets. */
  lemma MiddleProp(base: Record, mid: Record, top: Record, k: string)
    requires k in mid && k !in top
    ensures Prop(base + mid + top, k) == mid[k]
  {
    SpreadProp(base + mid, top, k);
  }

  function DayTimelineField(day: Js): Record {
    map[KTimeline := Arr(Map(Timeline(DayBlocks(day), DayHalts(day)), AsJs()))]
  }

  /** A day's number is its own finite number, else its position plus
      one. */
  lemma DayNumber(day: Js, index: nat, toFixed1: real -> string)
    ensures Prop(NormalizeDay(day, index, toFixed1), KDay)
         == Num(if Get(day, KDay).Num? then Get(day, KDay).n else (index + 1) as real)
  {
    MiddleProp(Fields(day), DayTexts(day, index, toFixed1), DayTimelineField(day), KDay);
  }

  /** A day's cost is its own finite number, else 0. */
  lemma DayCost(day: Js, index: nat, toFixed1: real -> string)
    ensures Prop(NormalizeDay(day, index, toFixed1), KEstimatedDayCost)
         == Num(if Get(day, KEstimatedDayCost).Num? then Get(day, KEstimatedDayCost).n else 0.0)
  {
    MiddleProp(Fields(day), DayTexts(day, index, toFixed1), DayTimelineField(day), KEstimatedDayCost);
  }

  /** A day without a title is titled by its position. */
  lemma DayTitle(day: Js, index: nat, toFixed1: real -> string)
    ensures Get(day, KTitle).Str? ==> Prop(NormalizeDay(day, index, toFixed1), KTitle) == Get(day, KTitle)
    ensures !Get(day, KTitle).Str? ==> Prop(NormalizeDay(day, index, toFixed1), KTitle) == Str("Day " + NatToString(index + 1))
  {
    MiddleProp(Fields(day), DayTexts(day, index, toFixed1), DayTimelineField(day), KTitle);
  }

  /** A day's timeline is the sorted merge of its own blocks and halts. */
  lemma DayTimeline(day: Js, index: nat, toFixed1: real -> string)
    ensures Prop(NormalizeDay(day, index, toFixed1), KTimeline) == Arr(Map(Timeline(DayBlocks(day), DayHalts(day)), AsJs()))
  {
    SpreadProp(Fields(day) + DayTexts(day, index, toFixed1), DayTimelineField(day), KTimeline);
  }

  /** The walking distance is "N/A" unless the estimate is a positive
      finite number. */
  lemma WalkingDefault(km: Js, toFixed1: real -> string)
    ensures WalkingDistance(km, toFixed1) == "N/A" <==> !(km.Num? && km.n > 0.0)
  {
    if km.Num? && km.n > 0.0 {
      var w := toFixed1(km.n) + " km";
      assert w[|w| - 1] == 'm';
    }
  }

  /** The itinerary has one normalised day per raw day, in order. */
  lemma ResponseDays(payload: Js, toFixed1: real -> string)
    ensures NormalizeResponse(payload, toFixed1).fields[KItinerary].Obj?
    ensures var days := Prop(NormalizeResponse(payload, toFixed1).fields[KItinerary].fields, KDays);
      var raw := RawDays(Get(payload, KItinerary));
      && days.Arr? && |days.items| == |raw|
      && forall i :: 0 <= i < |raw| ==> days.items[i] == Obj(NormalizeDay(raw[i], i, toFixed1))
  {
    var it := Get(payload, KItinerary);
    SpreadProp(AsRecord(it), ItineraryFields(it, toFixed1), KDays);
  }

  /** A missing cost is 0 and a missing budget verdict is "not within
      budget". */
  lemma ResponseTotals(payload: Js, toFixed1: real -> string)
    ensures var it := NormalizeItinerary(Get(payload, KItinerary), toFixed1);
      var raw := Get(payload, KItinerary);
      && Prop(it, KTotalEstimatedCost) == Num(if Get(raw, KTotalEstimatedCost).Num? then Get(raw, KTotalEstimatedCost).n else 0.0)
      && Prop(it, KWithinBudget) == Bool(Get(raw, KWithinBudget) == Bool(true))
  {
    var it := Get(payload, KItinerary);
    SpreadProp(AsRecord(it), ItineraryFields(it, toFixed1), KTotalEstimatedCost);
    SpreadProp(AsRecord(it), ItineraryFields(it, toFixed1), KWithinBudget);
  }

  // ---------------------------------------------------------------------
  // withAbsoluteAudioUrl / toStringArray
  // ---------------------------------------------------------------------

  predicate IsAbsoluteUrl(url: string) {
    StartsWith(url, "http://") || StartsWith(url, "https://")
  }

  /** `withAbsoluteAudioUrl`; `base` is the configured API base URL. */
  function WithAbsoluteAudioUrl(url: string, base: string): (r: string)
    ensures url == [] ==> r == []
    ensures url != [] ==> |r| >= |url| && r[|r| - |url|..] == url
    ensures IsAbsoluteUrl(url) ==> r == url
    ensures url != [] && !IsAbsoluteUrl(url) ==> r == base + url
  {
    if url == [] then []
    else if IsAbsoluteUrl(url) then url
    else base + url
  }

  /** With an absolute base, the result is absolute or empty, so applying
      the function twice changes nothing. */
  lemma AbsoluteUrlIdempotent(url: string, base: string)
    requires IsAbsoluteUrl(base)
    ensures WithAbsoluteAudioUrl(WithAbsoluteAudioUrl(url, base), base) == WithAbsoluteAudioUrl(url, base)
  {
    if url != [] && !IsAbsoluteUrl(url) {
      var r := base + url;
      if StartsWith(base, "http://") {
        assert r[..|"http://"|] == base[..|"http://"|];
      } else {
        assert r[..|"https://"|] == base[..|"https://"|];
      }
    }
  }

  /** `String(v)`; `numText` is the rendering of a finite number. */
  function JsString(v: Js, numText: real -> string): string
    decreases v, 1
  {
    match v
    case Undefined => "undefined"
    case Null => "null"
    case Bool(b) => if b then "true" else "false"
    case Num(n) => numText(n)
    case NaN => "NaN"
    case Infinity(negative) => if negative then "-Infinity" else "Infinity"
    case Str(s) => s
    case Arr(items) => JoinFrom(items, 0, numText)
    case Obj(_) => "[object Object]"
  }

  /** `Array.prototype.join(",")` from element `i`, with `null` and
      `undefined` elements written as empty. */
  function JoinFrom(items: seq<Js>, i: nat, numText: real -> string): string
    requires i <= |items|
    decreases Arr(items), 0, |items| - i
  {
    if i == |items| then ""
    else
      var x := items[i];
      (if i > 0 then "," else "") + (if x.Null? || x.Undefined? then "" else JsString(x, numText))
      + JoinFrom(items, i + 1, numText)
  }

  function TrimmedString(numText: real -> string): Js -> string {
    v => JsTrim(JsString(v, numText))
  }

  function NonEmpty(): string -> bool {
    s => s != []
  }

  /** `toStringArray`. */
  function ToStringArray(v: Js, numText: real -> string): (r: seq<string>)
    ensures v.Str? && JsTrim(v.s) != [] ==> r == [JsTrim(v.s)]
    ensures !v.Arr? && !(v.Str? && JsTrim(v.s) != []) ==> r == []
  {
    if v.Arr? then Filter(Map(v.items, TrimmedString(numText)), NonEmpty())
    else if v.Str? && JsTrim(v.s) != [] then [JsTrim(v.s)]
    else []
  }

  /** Every entry is non-empty and already trimmed; an array yields the
      trimmed text of its elements whose text is not blank, in order. */
  lemma ToStringArrayShape(v: Js, numText: real -> string)
    ensures forall k :: 0 <= k < |ToStringArray(v, numText)| ==>
              ToStringArray(v, numText)[k] != [] && JsTrim(ToStringArray(v, numText)[k]) == ToStringArray(v, numText)[k]
    ensures v.Arr? ==> ToStringArray(v, numText) == Filter(Map(v.items, TrimmedString(numText)), NonEmpty())
  {
    var r := ToStringArray(v, numText);
    forall k | 0 <= k < |r|
      ensures r[k] != [] && JsTrim(r[k]) == r[k]
    {
      if v.Arr? {
        var ts := Map(v.items, TrimmedString(numText));
        FilterMembers(ts, NonEmpty(), r[k]);
        var j :| 0 <= j < |ts| && ts[j] == r[k];
        JsTrimIdempotent(JsString(v.items[j], numText));
      } else {
        JsTrimIdempotent(v.s);
      }
    }
  }
}
