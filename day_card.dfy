/** The pure helpers of the day card (`components/DayCard.tsx`): telling a
    meal from a place, the hour an item starts in, and the order in which
    the card lists a day's timeline. */
module DayCard {
  import opened Wrappers
  import opened Text
  import opened Seqs
  import opened Sorting
  import opened Api
  import TimeSlots

  // ---------------------------------------------------------------------
  // isMealItem
  // ---------------------------------------------------------------------

  /** `isMealItem`: the item has a meal type, a signature dish or an outlet
      given as text. */
  predicate IsMealItem(item: Js) {
    Get(item, KMealType).Str? || Get(item, KSignatureDish).Str? || Get(item, KOutlet).Str?
  }

  /** Every normalised food halt is shown as a meal. */
  lemma NormalizedMealIsMeal(x: Js)
    ensures IsMealItem(Obj(NormalizeMeal(x)))
  {
    MealLabels(x, KMealType);
  }

  /** A normalised place is shown as a meal exactly when its raw block
      already carried one of the three meal fields as text: the place
      normalisation sets none of them. */
  lemma NormalizedPlaceIsMealIff(x: Js)
    ensures IsMealItem(Obj(NormalizePlace(x))) <==> IsMealItem(x)
  {
    PlaceKeepsRaw(x, KMealType);
    PlaceKeepsRaw(x, KSignatureDish);
    PlaceKeepsRaw(x, KOutlet);
  }

  // ---------------------------------------------------------------------
  // getStartHour
  // ---------------------------------------------------------------------

  /** `Math.max(0, Math.min(23, h))`. */
  function ClampHour(h: real): (r: real)
    ensures 0.0 <= r <= 23.0
    ensures 0.0 <= h <= 23.0 ==> r == h
    ensures h > 23.0 ==> r == 23.0
    ensures h < 0.0 ==> r == 0.0
  {
    if h < 0.0 then 0.0 else if h > 23.0 then 23.0 else h
  }

  /** The same clamp on whole hours. */
  function ClampWholeHour(h: int): (r: int)
    ensures 0 <= r <= 23
    ensures 0 <= h <= 23 ==> r == h
  {
    if h < 0 then 0 else if h > 23 then 23 else h
  }

  /** `time.split("-")[0].trim()`, then the part before the first `:`;
      `None` when that start is blank. */
  function HourPiece(t: string): Option<string> {
    var raw := JsTrim(BeforeSep(t, '-'));
    if raw == [] then None else Some(BeforeSep(raw, ':'))
  }

  /** The hour piece of the item's time text; `None` when it has none. */
  function HourText(item: Js): Option<string> {
    match Get(item, KTime)
    case Str(t) => HourPiece(t)
    case _ => None
  }

  /** A time text `c-rest` whose start `c` has no `-` and no blank at its
      ends gives the hour piece of `c`. */
  lemma HourPieceOfRange(c: string, rest: string)
    requires c != [] && '-' !in c && !IsJsSpace(c[0]) && !IsJsSpace(c[|c| - 1])
    ensures HourPiece(c + "-" + rest) == Some(BeforeSep(c, ':'))
  {
    TimeSlots.BeforeSepAt(c, '-', rest);
    JsTrimNoop(c);
  }

  /** An object holding only a time text has that text's hour piece. */
  lemma TimeOnlyHourText(t: string)
    ensures HourText(Obj(map[KTime := Str(t)])) == HourPiece(t)
    ensures !Get(Obj(map[KTime := Str(t)]), KStartMinutes).Num?
  {
    assert Get(Obj(map[KTime := Str(t)]), KTime) == Str(t);
    assert KStartMinutes !in map[KTime := Str(t)];
  }

  /** The hour as `Number` reads it, when the text has one and it is
      finite. */
  function TextHour(item: Js): Option<real> {
    match HourText(item)
    case None => None
    case Some(h) => JsNumber(h)
  }

  /** `getStartHour` as written: from a finite `start_minutes`, the floor
      of the hours, clamped to [0, 23]; otherwise the number before the
      first `:` of the start of the time text, clamped but not floored; 0
      when neither gives a finite number. */
  function StartHourAsWritten(item: Js): real {
    var sm := Get(item, KStartMinutes);
    if sm.Num? then ClampHour((sm.n / 60.0).Floor as real)
    else
      match TextHour(item)
      case None => 0.0
      case Some(h) => ClampHour(h)
  }

  /** The start hour as the card evidently means it: a whole hour in
      [0, 23], floored on both paths. */
  function StartHour(item: Js): (r: int)
    ensures 0 <= r <= 23
  {
    var sm := Get(item, KStartMinutes);
    if sm.Num? then ClampWholeHour((sm.n / 60.0).Floor)
    else
      match TextHour(item)
      case None => 0
      case Some(h) => ClampWholeHour(h.Floor)
  }

  /** Clamping and flooring commute. */
  lemma ClampFloor(h: real)
    ensures ClampWholeHour(h.Floor) == ClampHour(h).Floor
  {
  }

  /** As written, the hour lies in [0, 23], and the corrected hour is its
      floor; the two agree whenever the written one is whole, in
      particular whenever a finite `start_minutes` is given. */
  lemma StartHourIsFloorOfWritten(item: Js)
    ensures 0.0 <= StartHourAsWritten(item) <= 23.0
    ensures StartHour(item) == StartHourAsWritten(item).Floor
    ensures Get(item, KStartMinutes).Num? ==> StartHour(item) as real == StartHourAsWritten(item)
  {
    var sm := Get(item, KStartMinutes);
    if sm.Num? {
      ClampFloor((sm.n / 60.0).Floor as real);
    } else if TextHour(item).Some? {
      ClampFloor(TextHour(item).value);
    }
  }

  /** Without a finite `start_minutes`, an item whose time is missing,
      blank before the `-`, or whose hour is not a finite number starts
      at hour 0. */
  lemma NoHourIsMidnight(item: Js)
    requires !Get(item, KStartMinutes).Num? && TextHour(item).None?
    ensures StartHour(item) == 0 && StartHourAsWritten(item) == 0.0
  {
  }

  /** A whole number of minutes `m` starts in hour `m / 60`. */
  lemma WholeMinutesHour(m: nat)
    ensures ((m as real) / 60.0).Floor == m / 60
  {
    var q, r := m / 60, m % 60;
    assert (m as real) / 60.0 == q as real + (r as real) / 60.0;
  }

  /** The hour of a clock is its zero-padded first piece. */
  lemma ClockHourPiece(a: nat)
    ensures BeforeSep(TimeSlots.Clock(a), ':') == Pad2(a / 60)
  {
    var h, m := Pad2(a / 60), Pad2(a % 60);
    assert TimeSlots.Clock(a) == h + ":" + m;
    assert ':' !in h && ':' !in m;
    ClockPieces(h, m);
  }

  /** The hour text of a planner time range is its zero-padded hour. */
  lemma RangeHourPiece(a: nat, e: nat)
    ensures HourPiece(TimeSlots.Clock(a) + "-" + TimeSlots.Clock(e)) == Some(Pad2(a / 60))
  {
    var c := TimeSlots.Clock(a);
    HourPieceOfRange(c, TimeSlots.Clock(e));
    ClockHourPiece(a);
  }

  lemma RangeHourText(a: nat, e: nat)
    ensures TextHour(Obj(map[KTime := Str(TimeSlots.Clock(a) + "-" + TimeSlots.Clock(e))])) == Some((a / 60) as real)
  {
    TimeOnlyHourText(TimeSlots.Clock(a) + "-" + TimeSlots.Clock(e));
    RangeHourPiece(a, e);
    JsNumberOfDigits(Pad2(a / 60));
  }

  /** An item with a whole number `m` of start minutes starts in hour
      `m / 60`, capped at 23. */
  lemma MinutesHour(item: Js, m: nat)
    requires Get(item, KStartMinutes) == Num(m as real)
    ensures StartHour(item) == ClampWholeHour(m / 60)
  {
    WholeMinutesHour(m);
  }

  /** An item without start minutes whose time text starts with the whole
      hour `h` starts in hour `h`, capped at 23. */
  lemma TextWholeHour(item: Js, h: nat)
    requires !Get(item, KStartMinutes).Num? && TextHour(item) == Some(h as real)
    ensures StartHour(item) == ClampWholeHour(h)
  {
    assert (h as real).Floor == h;
  }

  /** Both paths agree on the time ranges the planner writes: the
      normalised item, whose `start_minutes` was parsed from the text
      `HH:MM-HH:MM` of a start `a`, starts in hour `a / 60`, capped at
      23 ... */
  lemma PlannerRangeHour(x: Js, a: nat, e: nat)
    requires TimeText(x) == TimeSlots.Clock(a) + "-" + TimeSlots.Clock(e)
    ensures StartHour(Obj(NormalizePlace(x))) == ClampWholeHour(a / 60)
  {
    PlaceTimes(x);
    RangeStartReadsBack(a, e);
    MinutesHour(Obj(NormalizePlace(x)), a);
  }

  /** ... and so does an item carrying only that text. */
  lemma PlannerRangeTextHour(a: nat, e: nat)
    ensures StartHour(Obj(map[KTime := Str(TimeSlots.Clock(a) + "-" + TimeSlots.Clock(e))])) == ClampWholeHour(a / 60)
  {
    var item := Obj(map[KTime := Str(TimeSlots.Clock(a) + "-" + TimeSlots.Clock(e))]);
    TimeOnlyHourText(TimeSlots.Clock(a) + "-" + TimeSlots.Clock(e));
    RangeHourText(a, e);
    TextWholeHour(item, a / 60);
  }

  /** A normalised item whose time text does not parse carries
      `Number.MAX_SAFE_INTEGER` minutes, so it is put in hour 23. */
  lemma UnparsedTimeIsLateHour(x: Js)
    requires ParseStartTime(TimeText(x)) == MaxSafeInteger
    ensures StartHour(Obj(NormalizePlace(x))) == 23
  {
    PlaceTimes(x);
  }

  /** The item that shows the written hour is not whole: the time
      `"9.5:00-10:00"` with no `start_minutes`. */
  const FractionalHour: string := "9" + "." + "5"
  const FractionalTime: string := (FractionalHour + ":" + "00") + "-" + "10:00"
  const FractionalItem: Js := Obj(map[KTime := Str(FractionalTime)])

  lemma FractionalHourText()
    ensures HourText(FractionalItem) == Some(FractionalHour)
  {
    var c := FractionalHour + ":" + "00";
    TimeOnlyHourText(FractionalTime);
    HourPieceOfRange(c, "10:00");
    TimeSlots.BeforeSepAt(FractionalHour, ':', "00");
  }

  lemma NinePointFive()
    ensures JsNumber(FractionalHour) == Some(9.5)
  {
    var h := FractionalHour;
    assert JsTrim(h) == h by {
      JsTrimNoop(h);
    }
    assert BeforeSep(h, '.') == "9" by {
      TimeSlots.BeforeSepAt("9", '.', "5");
    }
    assert h[2..] == "5";
    assert DigitsValue("9") == 9 && DigitsValue("5") == 5;
  }

  lemma FractionalStartHour()
    ensures StartHourAsWritten(FractionalItem) == 9.5
    ensures StartHour(FractionalItem) == 9
  {
    TimeOnlyHourText(FractionalTime);
    FractionalHourText();
    NinePointFive();
  }

  // ---------------------------------------------------------------------
  // The timeline order
  // ---------------------------------------------------------------------

  /** The start the comparator reads: `start_minutes` when it is a finite
      number, else `Number.MAX_SAFE_INTEGER`. */
  function CardStart(item: Js): real {
    var s := Get(item, KStartMinutes);
    if s.Num? then s.n else MaxSafeInteger
  }

  /** Ascending start as a largest-first sort key. */
  function CardKey(): Js -> Key {
    item => Key(-CardStart(item), 0.0)
  }

  /** `[...rawTimeline].sort((a, b) => aStart - bStart)`, where
      `rawTimeline` is `day.timeline` when it is an array and `[]`
      otherwise. */
  function SortedTimeline(day: Js): seq<Js> {
    SortDesc(ToArray(Get(day, KTimeline)), CardKey())
  }

  /** The card lists every timeline item once, in ascending order of
      start, items without a finite start after all the others. */
  lemma SortedTimelineOrdered(day: Js)
    ensures multiset(SortedTimeline(day)) == multiset(ToArray(Get(day, KTimeline)))
    ensures forall i, j :: 0 <= i < j < |SortedTimeline(day)| ==>
      CardStart(SortedTimeline(day)[i]) <= CardStart(SortedTimeline(day)[j])
    ensures forall i, j :: 0 <= i < j < |SortedTimeline(day)| && !Get(SortedTimeline(day)[i], KStartMinutes).Num? ==>
      CardStart(SortedTimeline(day)[j]) >= MaxSafeInteger
  {
    var r := SortedTimeline(day);
    SortDescSorted(ToArray(Get(day, KTimeline)), CardKey());
    forall i, j | 0 <= i < j < |r|
      ensures CardStart(r[i]) <= CardStart(r[j])
    {
      assert !Greater(CardKey()(r[j]), CardKey()(r[i]));
    }
  }

  /** The sort is stable: items with the same start keep their order. */
  lemma SortedTimelineStable(day: Js, k: Key)
    ensures WithKey(SortedTimeline(day), CardKey(), k) == WithKey(ToArray(Get(day, KTimeline)), CardKey(), k)
  {
    SortDescStable(ToArray(Get(day, KTimeline)), CardKey(), k);
  }

  /** The card reads a normalised item's start as the normaliser's sort
      did. */
  lemma CardKeyOfRecord(r: Record)
    ensures CardKey()(Obj(r)) == StartKey()(r)
  {
  }

  /** The timeline of a normalised day is already in the card's order, so
      the card shows it as the normaliser built it. */
  lemma CardKeepsNormalizedOrder(day: Js, index: nat, toFixed1: real -> string)
    ensures SortedTimeline(Obj(NormalizeDay(day, index, toFixed1)))
         == Map(Timeline(DayBlocks(day), DayHalts(day)), AsJs())
  {
    var items := Timeline(DayBlocks(day), DayHalts(day));
    var xs := Map(items, AsJs());
    DayTimeline(day, index, toFixed1);
    assert ToArray(Get(Obj(NormalizeDay(day, index, toFixed1)), KTimeline)) == xs;
    TimelineSorted(DayBlocks(day), DayHalts(day));
    forall i, j | 0 <= i < j < |xs|
      ensures !Greater(CardKey()(xs[j]), CardKey()(xs[i]))
    {
      CardKeyOfRecord(items[i]);
      CardKeyOfRecord(items[j]);
    }
    SortDescOfSorted(xs, CardKey());
  }
}
