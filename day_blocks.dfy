/** Repair of one day's sightseeing blocks (`_sanitize_day_blocks`,
    `_is_high_effort` and `_is_extended_visit` in
    `services/final_route_architect.py`): keep the first four blocks whose
    place is in the verified index, drop blocks that would spread a half-day
    over more than 8 km, and give a far high-effort place a day of its own. */
module DayBlocks {
  import opened Wrappers
  import opened Text
  import opened Names
  import opened Places
  import opened Seqs
  import opened Dicts
  import opened Catalog
  import opened TimeSlots

  /** A visit block as the model proposes it. */
  datatype RawBlock = RawBlock(time: string, place: string, reason: string)

  /** A visit block after repair: `place` is the index's own name. */
  datatype Block = Block(time: string, place: string, reason: string)

  /** `a or b` on strings. */
  function OrElse(a: string, b: string): string {
    if a != [] then a else b
  }

  // ---------------------------------------------------------------------
  // Effort and visit length
  // ---------------------------------------------------------------------

  const HighEffortKeywords: seq<string> := ["fort", "trek", "hill", "outskirts", "high_effort", "peak", "sanctuary"]

  const ExtendedVisitKeywords: seq<string> := ["hill", "viewpoint", "cityscape", "fort", "trek", "sunset point", "peak"]

  /** `_is_high_effort`: a keyword occurs in the lowered name, category and
      effort type. */
  predicate IsHighEffort(p: IndexedPlace) {
    AnyContains(Lower(p.name + " " + p.category + " " + p.effortType), HighEffortKeywords)
  }

  /** `_is_extended_visit` on a place's name and category (both `""` for a
      place missing from the index). */
  predicate IsExtendedVisit(name: string, category: string) {
    AnyContains(Lower(name + " " + category), ExtendedVisitKeywords)
  }

  /** A keyword in the category makes a place high-effort, whatever its name
      and effort type say. */
  lemma HighEffortByCategory(p: IndexedPlace, k: nat)
    requires k < |HighEffortKeywords| && Contains(Lower(p.category), HighEffortKeywords[k])
    ensures IsHighEffort(p)
  {
    LowerAppend(p.name + " ", p.category);
    LowerAppend(p.name + " " + p.category, " " + p.effortType);
    assert p.name + " " + p.category + " " + p.effortType == (p.name + " ") + p.category + (" " + p.effortType);
    LowerAppend(p.name + " ", p.category + " " + p.effortType);
    LowerAppend(p.category, " " + p.effortType);
    ContainsInfix(Lower(p.name + " "), Lower(p.category), Lower(" " + p.effortType), HighEffortKeywords[k]);
  }

  /** A keyword in the lowered name makes a place an extended visit,
      whatever its category says. */
  lemma ExtendedByName(name: string, category: string, k: nat)
    requires k < |ExtendedVisitKeywords| && Contains(Lower(name), ExtendedVisitKeywords[k])
    ensures IsExtendedVisit(name, category)
  {
    var kw := ExtendedVisitKeywords[k];
    var text := Lower(name + " " + category);
    assert name + " " + category == name + (" " + category);
    LowerAppend(name, " " + category);
    ContainsIff(Lower(name), kw);
    var i :| OccursAt(Lower(name), kw, i);
    assert text[i..i + |kw|] == Lower(name)[i..i + |kw|];
    ContainsIff(text, kw);
    assert OccursAt(text, kw, i);
  }

  /** A keyword in the lowered category makes a place an extended visit,
      whatever its name says. */
  lemma ExtendedByCategory(name: string, category: string, k: nat)
    requires k < |ExtendedVisitKeywords| && Contains(Lower(category), ExtendedVisitKeywords[k])
    ensures IsExtendedVisit(name, category)
  {
    LowerAppend(name + " ", category);
    ContainsInfix(Lower(name + " "), Lower(category), [], ExtendedVisitKeywords[k]);
    assert Lower(name + " ") + Lower(category) + [] == Lower(name + " " + category);
  }

  /** A text shorter than a keyword does not contain it. */
  lemma ShortTextMisses(text: string, kw: string)
    requires |text| < |kw|
    ensures !Contains(text, kw)
    decreases |text|
  {
    if text != [] {
      ShortTextMisses(text[1..], kw);
    }
  }

  /** A place missing from the index (an empty dict in the source) is never
      an extended visit, so it gets the default hour. */
  lemma MissingPlaceNotExtended()
    ensures !IsExtendedVisit("", "")
  {
    forall k | 0 <= k < |ExtendedVisitKeywords|
      ensures !Contains(Lower("" + " " + ""), ExtendedVisitKeywords[k])
    {
      ShortTextMisses(Lower("" + " " + ""), ExtendedVisitKeywords[k]);
    }
  }

  // ---------------------------------------------------------------------
  // Index lookups
  // ---------------------------------------------------------------------

  /** `place_index.get(_canonical_name(name))`. */
  function Lookup(index: PlaceIndex, name: string): (r: Option<IndexedPlace>)
    ensures r.Some? <==> Canonical(name) in index.entries
  {
    if Canonical(name) in index.entries then Some(index.entries[Canonical(name)]) else None
  }

  /** Where a block's place is; the source only asks this of blocks whose
      place it has found in the index. */
  function Loc(index: PlaceIndex, b: Block): Point {
    match Lookup(index, b.place)
    case Some(p) => Point(p.lat, p.lng)
    case None => Point(0.0, 0.0)
  }

  /** In a well-keyed index, looking a stored name up again finds its own
      entry. */
  lemma LookupStoredName(index: PlaceIndex, c: string)
    requires WellKeyed(index) && c in index.entries
    ensures Lookup(index, index.entries[c].name) == Some(index.entries[c])
  {
  }

  // ---------------------------------------------------------------------
  // Keeping the indexed blocks
  // ---------------------------------------------------------------------

  /** `blocks[:n]`. */
  function Take<T>(s: seq<T>, n: nat): (r: seq<T>)
    ensures |r| <= n
  {
    if |s| <= n then s else s[..n]
  }

  function InIndex(index: PlaceIndex): RawBlock -> bool {
    (b: RawBlock) => Canonical(b.place) in index.entries
  }

  /** The repaired block: stripped time and reason with their defaults, and
      the index's name for the place. */
  function CheckBlock(index: PlaceIndex, b: RawBlock): Block
    requires Canonical(b.place) in index.entries
  {
    Block(OrElse(Strip(b.time), "09:00-10:30"), index.entries[Canonical(b.place)].name,
          OrElse(Strip(b.reason), "Aligned with traffic and site rhythm."))
  }

  function CheckedBlockOf(index: PlaceIndex): RawBlock -> Block {
    (b: RawBlock) => if Canonical(b.place) in index.entries then CheckBlock(index, b) else Block("", "", "")
  }

  /** `valid_blocks`. */
  function ValidBlocks(blocks: seq<RawBlock>, index: PlaceIndex): seq<Block> {
    Map(Filter(Take(blocks, 4), InIndex(index)), CheckedBlockOf(index))
  }

  /** Every valid block repairs one of the first four proposed blocks whose
      place is indexed, and names an indexed place. */
  lemma ValidBlocksOrigin(blocks: seq<RawBlock>, index: PlaceIndex, b: Block)
    requires b in ValidBlocks(blocks, index)
    ensures exists i :: 0 <= i < |blocks| && i < 4 && InIndex(index)(blocks[i]) && b == CheckedBlockOf(index)(blocks[i])
  {
    var first := Take(blocks, 4);
    MapFilterOrigin(first, InIndex(index), CheckedBlockOf(index), b);
    var i :| 0 <= i < |first| && InIndex(index)(first[i]) && b == CheckedBlockOf(index)(first[i]);
    assert first[i] == blocks[i];
  }

  /** A repaired block's place is found again by name in a well-keyed index. */
  lemma ValidBlocksIndexed(blocks: seq<RawBlock>, index: PlaceIndex, b: Block)
    requires WellKeyed(index) && b in ValidBlocks(blocks, index)
    ensures Lookup(index, b.place).Some? && Lookup(index, b.place).value.name == b.place
  {
    ValidBlocksOrigin(blocks, index, b);
    var i :| 0 <= i < |blocks| && i < 4 && InIndex(index)(blocks[i]) && b == CheckedBlockOf(index)(blocks[i]);
    LookupStoredName(index, Canonical(blocks[i].place));
  }

  // ---------------------------------------------------------------------
  // Half-days
  // ---------------------------------------------------------------------

  /** A block starting before 13:00 belongs to the morning. */
  predicate IsMorning(b: Block) {
    ParseStartHour(b.time) < 13.0
  }

  function MorningOf(): Block -> bool {
    (b: Block) => IsMorning(b)
  }

  /** The greedy spread check of one half-day: a block is kept when nothing
      is kept yet or it is `near` every block kept before it. */
  function Prune<T>(xs: seq<T>, near: (T, T) -> bool): (r: seq<T>)
    ensures |r| <= |xs|
  {
    if xs == [] then []
    else
      var kept := Prune(xs[..|xs| - 1], near);
      var x := xs[|xs| - 1];
      if kept == [] || NearAll(x, kept, near) then kept + [x] else kept
  }

  predicate NearAll<T>(x: T, kept: seq<T>, near: (T, T) -> bool) {
    forall k :: 0 <= k < |kept| ==> near(x, kept[k])
  }

  lemma PrunePrefix<T>(xs: seq<T>, i: nat, near: (T, T) -> bool)
    requires i < |xs|
    ensures Prune(xs[..i + 1], near)
         == (var kept := Prune(xs[..i], near);
             if kept == [] || NearAll(xs[i], kept, near) then kept + [xs[i]] else kept)
  {
    assert xs[..i + 1][..i] == xs[..i];
  }

  /** The loop over one half-day's blocks, with its inner loop that stops at
      the first kept block too far from the candidate. */
  method PruneLoop<T>(xs: seq<T>, near: (T, T) -> bool) returns (current: seq<T>)
    ensures current == Prune(xs, near)
  {
    current := [];
    var i := 0;
    while i < |xs|
      invariant 0 <= i <= |xs|
      invariant current == Prune(xs[..i], near)
    {
      PrunePrefix(xs, i, near);
      var candidate := xs[i];
      if current == [] {
        current := current + [candidate];
      } else {
        var within := true;
        var j := 0;
        while j < |current|
          invariant 0 <= j <= |current|
          invariant within <==> forall k :: 0 <= k < j ==> near(candidate, current[k])
        {
          if !near(candidate, current[j]) {
            within := false;
            break;
          }
          j := j + 1;
        }
        assert within <==> NearAll(candidate, current, near);
        if within {
          current := current + [candidate];
        }
      }
      i := i + 1;
    }
    assert xs[..|xs|] == xs;
  }

  /** Every kept block is one of the half-day's blocks. */
  lemma {:induction false} PruneSubset<T>(xs: seq<T>, near: (T, T) -> bool)
    ensures forall k :: 0 <= k < |Prune(xs, near)| ==> Prune(xs, near)[k] in xs
    decreases |xs|
  {
    if xs != [] {
      PruneSubset(xs[..|xs| - 1], near);
    }
  }

  /** The kept blocks are pairwise within the limit: each is `near` every
      block kept before it. */
  lemma {:induction false} PrunePairwise<T>(xs: seq<T>, near: (T, T) -> bool)
    ensures forall i, j :: 0 <= i < j < |Prune(xs, near)| ==> near(Prune(xs, near)[j], Prune(xs, near)[i])
    decreases |xs|
  {
    if xs != [] {
      PrunePairwise(xs[..|xs| - 1], near);
    }
  }

  /** The first block of a half-day is always kept, as the first. */
  lemma {:induction false} PruneKeepsFirst<T>(xs: seq<T>, near: (T, T) -> bool)
    requires xs != []
    ensures Prune(xs, near) != [] && Prune(xs, near)[0] == xs[0]
    decreases |xs|
  {
    if |xs| > 1 {
      PruneKeepsFirst(xs[..|xs| - 1], near);
    }
  }

  /** Nothing is dropped from a half-day whose blocks are already pairwise
      within the limit. */
  lemma {:induction false} PruneCompact<T>(xs: seq<T>, near: (T, T) -> bool)
    requires forall i, j :: 0 <= i < j < |xs| ==> near(xs[j], xs[i])
    ensures Prune(xs, near) == xs
    decreases |xs|
  {
    if xs != [] {
      var pre := xs[..|xs| - 1];
      PruneCompact(pre, near);
      assert NearAll(xs[|xs| - 1], pre, near);
    }
  }

  // ---------------------------------------------------------------------
  // Isolation of far high-effort places
  // ---------------------------------------------------------------------

  /** The position of the first block satisfying `far`. */
  function FirstFar<T>(xs: seq<T>, far: T -> bool): (r: Option<nat>)
    ensures r.Some? ==> r.value < |xs| && far(xs[r.value])
    ensures r.Some? ==> forall j :: 0 <= j < r.value ==> !far(xs[j])
    ensures r.None? ==> forall j :: 0 <= j < |xs| ==> !far(xs[j])
  {
    if xs == [] then None
    else if far(xs[0]) then Some(0)
    else match FirstFar(xs[1..], far)
      case None => None
      case Some(k) => Some(k + 1)
  }

  /** The first far block alone, or all blocks when none is far. */
  function Isolate<T>(xs: seq<T>, far: T -> bool): seq<T> {
    match FirstFar(xs, far)
    case Some(k) => [xs[k]]
    case None => xs
  }

  /** The isolation loop, which returns at the first far block. */
  method IsolateLoop<T>(xs: seq<T>, far: T -> bool) returns (r: seq<T>)
    ensures r == Isolate(xs, far)
  {
    var isolated := [];
    var i := 0;
    while i < |xs|
      invariant 0 <= i <= |xs|
      invariant isolated == xs[..i]
      invariant forall j :: 0 <= j < i ==> !far(xs[j])
    {
      if far(xs[i]) {
        assert FirstFar(xs, far) == Some(i);
        return [xs[i]];
      }
      isolated := isolated + [xs[i]];
      i := i + 1;
    }
    assert isolated == xs;
    return isolated;
  }

  /** A far block never shares its day: it is the whole result. */
  lemma IsolateAlone<T>(xs: seq<T>, far: T -> bool)
    ensures forall k :: 0 <= k < |Isolate(xs, far)| && far(Isolate(xs, far)[k]) ==> |Isolate(xs, far)| == 1
    ensures |Isolate(xs, far)| <= |xs|
    ensures forall k :: 0 <= k < |Isolate(xs, far)| ==> Isolate(xs, far)[k] in xs
  {
  }

  // ---------------------------------------------------------------------
  // The whole repair
  // ---------------------------------------------------------------------

  /** Two blocks are close enough to share a half-day. */
  function Near(index: PlaceIndex, dist: (Point, Point) -> real): (Block, Block) -> bool {
    (a: Block, b: Block) => dist(Loc(index, a), Loc(index, b)) <= 8.0
  }

  /** A block is a high-effort place more than 15 km from the centre. */
  function Far(index: PlaceIndex, center: Point, dist: (Point, Point) -> real): Block -> bool {
    (b: Block) => match Lookup(index, b.place)
         case Some(p) => IsHighEffort(p) && dist(Point(p.lat, p.lng), center) > 15.0
         case None => false
  }

  /** The pruned blocks: the morning ones first, then the afternoon ones. */
  function Pruned(valid: seq<Block>, index: PlaceIndex, dist: (Point, Point) -> real): seq<Block> {
    Prune(Filter(valid, MorningOf()), Near(index, dist)) + Prune(Filter(valid, Not(MorningOf())), Near(index, dist))
  }

  /** What `_sanitize_day_blocks` returns. */
  function DayPlan(blocks: seq<RawBlock>, index: PlaceIndex, center: Point, dist: (Point, Point) -> real): seq<Block> {
    var valid := ValidBlocks(blocks, index);
    if valid == [] then [] else Isolate(Pruned(valid, index, dist), Far(index, center, dist))
  }

  /** `_sanitize_day_blocks`. The distance is a parameter: the source's
      haversine formula is floating-point trigonometry. */
  method SanitizeDayBlocks(blocks: seq<RawBlock>, index: PlaceIndex, center: Point, dist: (Point, Point) -> real)
    returns (out: seq<Block>)
    ensures out == DayPlan(blocks, index, center, dist)
  {
    var valid := FilterMapLoop(Take(blocks, 4), InIndex(index), CheckedBlockOf(index));
    if valid == [] {
      return [];
    }
    var morning, afternoon := PartitionLoop(valid, MorningOf());
    var keptMorning := PruneLoop(morning, Near(index, dist));
    var keptAfternoon := PruneLoop(afternoon, Near(index, dist));
    out := IsolateLoop(keptMorning + keptAfternoon, Far(index, center, dist));
  }

  /** Every block of the day plan is one of the valid blocks. */
  lemma DayPlanFromValid(blocks: seq<RawBlock>, index: PlaceIndex, center: Point, dist: (Point, Point) -> real)
    ensures forall k :: 0 <= k < |DayPlan(blocks, index, center, dist)| ==>
      DayPlan(blocks, index, center, dist)[k] in ValidBlocks(blocks, index)
  {
    var valid := ValidBlocks(blocks, index);
    var pruned := Pruned(valid, index, dist);
    IsolateAlone(pruned, Far(index, center, dist));
    forall b | b in pruned
      ensures b in valid
    {
      PrunedFromValid(valid, index, dist, b);
    }
  }

  lemma PrunedFromValid(valid: seq<Block>, index: PlaceIndex, dist: (Point, Point) -> real, b: Block)
    requires b in Pruned(valid, index, dist)
    ensures b in valid
  {
    var near := Near(index, dist);
    var m, a := Filter(valid, MorningOf()), Filter(valid, Not(MorningOf()));
    if b in Prune(m, near) {
      PruneSubset(m, near);
      FilterMembers(valid, MorningOf(), b);
    } else {
      assert b in Prune(a, near);
      PruneSubset(a, near);
      FilterMembers(valid, Not(MorningOf()), b);
    }
  }

  /** At most four blocks, each repairing one of the first four proposed
      blocks whose place is indexed, and naming a place found again in a
      well-keyed index. */
  lemma DayPlanBlocks(blocks: seq<RawBlock>, index: PlaceIndex, center: Point, dist: (Point, Point) -> real, k: nat)
    requires k < |DayPlan(blocks, index, center, dist)|
    ensures |DayPlan(blocks, index, center, dist)| <= 4
    ensures exists i :: 0 <= i < |blocks| && i < 4 && InIndex(index)(blocks[i])
                        && DayPlan(blocks, index, center, dist)[k] == CheckedBlockOf(index)(blocks[i])
    ensures WellKeyed(index) ==> Lookup(index, DayPlan(blocks, index, center, dist)[k].place).Some?
  {
    var valid := ValidBlocks(blocks, index);
    var m, a := Filter(valid, MorningOf()), Filter(valid, Not(MorningOf()));
    PartitionPermutation(valid, MorningOf());
    assert |m| + |a| == |valid| by {
      assert |multiset(m)| + |multiset(a)| == |multiset(valid)|;
    }
    IsolateAlone(Pruned(valid, index, dist), Far(index, center, dist));
    DayPlanFromValid(blocks, index, center, dist);
    ValidBlocksOrigin(blocks, index, DayPlan(blocks, index, center, dist)[k]);
    if WellKeyed(index) {
      ValidBlocksIndexed(blocks, index, DayPlan(blocks, index, center, dist)[k]);
    }
  }

  /** The morning blocks come before the afternoon blocks, and the blocks of
      one half-day are pairwise within 8 km. */
  ghost predicate HalvesOrdered(plan: seq<Block>, index: PlaceIndex, dist: (Point, Point) -> real) {
    (forall i, j :: 0 <= i < j < |plan| ==> (IsMorning(plan[j]) ==> IsMorning(plan[i])))
    && (forall i, j :: (0 <= i < j < |plan| && IsMorning(plan[i]) == IsMorning(plan[j])) ==>
          Near(index, dist)(plan[j], plan[i]))
  }

  lemma DayPlanHalves(blocks: seq<RawBlock>, index: PlaceIndex, center: Point, dist: (Point, Point) -> real)
    ensures HalvesOrdered(DayPlan(blocks, index, center, dist), index, dist)
  {
    var valid := ValidBlocks(blocks, index);
    if valid != [] {
      var p := Pruned(valid, index, dist);
      HalvesOfPruned(valid, index, dist);
      if FirstFar(p, Far(index, center, dist)).None? {
        assert DayPlan(blocks, index, center, dist) == p;
      } else {
        assert |DayPlan(blocks, index, center, dist)| == 1;
      }
    }
  }

  lemma HalvesOfPruned(valid: seq<Block>, index: PlaceIndex, dist: (Point, Point) -> real)
    ensures HalvesOrdered(Pruned(valid, index, dist), index, dist)
  {
    var near := Near(index, dist);
    var m, a := Filter(valid, MorningOf()), Filter(valid, Not(MorningOf()));
    PruneSides(valid, MorningOf(), near);
    JoinedHalves(Prune(m, near), Prune(a, near), MorningOf(), near);
    assert Pruned(valid, index, dist) == Prune(m, near) + Prune(a, near);
  }

  /** Pruning one side of a split keeps every block on that side. */
  lemma PruneSides<T>(xs: seq<T>, p: T -> bool, near: (T, T) -> bool)
    ensures forall k :: 0 <= k < |Prune(Filter(xs, p), near)| ==> p(Prune(Filter(xs, p), near)[k])
    ensures forall k :: 0 <= k < |Prune(Filter(xs, Not(p)), near)| ==> !p(Prune(Filter(xs, Not(p)), near)[k])
    ensures forall i, j :: 0 <= i < j < |Prune(Filter(xs, p), near)| ==>
      near(Prune(Filter(xs, p), near)[j], Prune(Filter(xs, p), near)[i])
    ensures forall i, j :: 0 <= i < j < |Prune(Filter(xs, Not(p)), near)| ==>
      near(Prune(Filter(xs, Not(p)), near)[j], Prune(Filter(xs, Not(p)), near)[i])
  {
    var m, a := Filter(xs, p), Filter(xs, Not(p));
    PruneSubset(m, near);
    PruneSubset(a, near);
    PrunePairwise(m, near);
    PrunePairwise(a, near);
    forall k | 0 <= k < |Prune(m, near)|
      ensures p(Prune(m, near)[k])
    {
      FilterMembers(xs, p, Prune(m, near)[k]);
    }
    forall k | 0 <= k < |Prune(a, near)|
      ensures !p(Prune(a, near)[k])
    {
      FilterMembers(xs, Not(p), Prune(a, near)[k]);
    }
  }

  /** Joining a `p` side before a `!p` side, each pairwise `near`: `p` blocks
      come first, and blocks on the same side are `near`. */
  lemma JoinedHalves<T>(xs: seq<T>, ys: seq<T>, p: T -> bool, near: (T, T) -> bool)
    requires forall k :: 0 <= k < |xs| ==> p(xs[k])
    requires forall k :: 0 <= k < |ys| ==> !p(ys[k])
    requires forall i, j :: 0 <= i < j < |xs| ==> near(xs[j], xs[i])
    requires forall i, j :: 0 <= i < j < |ys| ==> near(ys[j], ys[i])
    ensures forall i, j :: 0 <= i < j < |xs + ys| ==> (p((xs + ys)[j]) ==> p((xs + ys)[i]))
    ensures forall i, j :: (0 <= i < j < |xs + ys| && p((xs + ys)[i]) == p((xs + ys)[j])) ==>
      near((xs + ys)[j], (xs + ys)[i])
  {
    var z := xs + ys;
    forall i, j | 0 <= i < j < |z| && p(z[i]) == p(z[j])
      ensures near(z[j], z[i])
    {
      if j < |xs| {
        assert z[i] == xs[i] && z[j] == xs[j];
      } else if i >= |xs| {
        assert z[i] == ys[i - |xs|] && z[j] == ys[j - |xs|];
      }
    }
  }

  /** A far high-effort place gets the day to itself: when one survives
      pruning, the plan is exactly the first such block. */
  lemma DayPlanIsolates(blocks: seq<RawBlock>, index: PlaceIndex, center: Point, dist: (Point, Point) -> real, k: nat)
    requires ValidBlocks(blocks, index) != []
    requires k < |Pruned(ValidBlocks(blocks, index), index, dist)|
    requires Far(index, center, dist)(Pruned(ValidBlocks(blocks, index), index, dist)[k])
    ensures |DayPlan(blocks, index, center, dist)| == 1
    ensures Far(index, center, dist)(DayPlan(blocks, index, center, dist)[0])
    ensures exists i :: (0 <= i <= k && DayPlan(blocks, index, center, dist) == [Pruned(ValidBlocks(blocks, index), index, dist)[i]] &&
      forall j :: 0 <= j < i ==> !Far(index, center, dist)(Pruned(ValidBlocks(blocks, index), index, dist)[j]))
  {
    var far := Far(index, center, dist);
    var p := Pruned(ValidBlocks(blocks, index), index, dist);
    var first := FirstFar(p, far);
    assert far(p[k]);
    assert first.Some?;
    var i := first.value;
    assert i <= k;
    assert Isolate(p, far) == [p[i]];
    assert DayPlan(blocks, index, center, dist) == [p[i]];
  }

  /** With no far high-effort place, the first morning block (or, with no
      morning block, the first afternoon block) opens the day. */
  lemma DayPlanOpens(blocks: seq<RawBlock>, index: PlaceIndex, center: Point, dist: (Point, Point) -> real)
    requires ValidBlocks(blocks, index) != []
    requires FirstFar(Pruned(ValidBlocks(blocks, index), index, dist), Far(index, center, dist)).None?
    ensures DayPlan(blocks, index, center, dist) != []
    ensures Filter(ValidBlocks(blocks, index), MorningOf()) != [] ==>
      DayPlan(blocks, index, center, dist)[0] == Filter(ValidBlocks(blocks, index), MorningOf())[0]
    ensures Filter(ValidBlocks(blocks, index), MorningOf()) == [] ==>
      DayPlan(blocks, index, center, dist)[0] == Filter(ValidBlocks(blocks, index), Not(MorningOf()))[0]
    ensures Filter(ValidBlocks(blocks, index), MorningOf()) != [] ==>
      Filter(ValidBlocks(blocks, index), MorningOf())[0] in DayPlan(blocks, index, center, dist)
    ensures Filter(ValidBlocks(blocks, index), Not(MorningOf())) != [] ==>
      Filter(ValidBlocks(blocks, index), Not(MorningOf()))[0] in DayPlan(blocks, index, center, dist)
  {
    var valid := ValidBlocks(blocks, index);
    var near := Near(index, dist);
    var m, a := Filter(valid, MorningOf()), Filter(valid, Not(MorningOf()));
    PartitionPermutation(valid, MorningOf());
    assert |m| + |a| == |valid| by {
      assert |multiset(m)| + |multiset(a)| == |multiset(valid)|;
    }
    assert DayPlan(blocks, index, center, dist) == Prune(m, near) + Prune(a, near);
    if m != [] {
      PruneKeepsFirst(m, near);
    } else {
      assert Prune(m, near) == [];
    }
    if a != [] {
      PruneKeepsFirst(a, near);
      assert (Prune(m, near) + Prune(a, near))[|Prune(m, near)|] == a[0];
    }
  }
}
