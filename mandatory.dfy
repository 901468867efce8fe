/** Insertion of the mandatory top-ranked places into the days of an
    itinerary (`_insert_mandatory_places` in
    `services/final_route_architect.py`). The days are an array of
    schedules, each a list of blocks, updated in place. */
module Mandatory {
  import opened Wrappers
  import opened Names
  import opened Seqs
  import opened Catalog
  import opened DayBlocks

  const MandatoryReason := "Mandatory top-ranked place from initial destination ranking."

  // ---------------------------------------------------------------------
  // Which places are mandatory and missing
  // ---------------------------------------------------------------------

  function CanonicalOf(): string -> string {
    (name: string) => Canonical(name)
  }

  function IndexedKey(index: PlaceIndex): string -> bool {
    (c: string) => c in index.entries
  }

  /** The canonical names of `names` that are in the index, each once, in
      the order first seen: `mandatory_names`, and the `unique_places` a
      day is charged for. */
  function IndexedNames(names: seq<string>, index: PlaceIndex): seq<string> {
    Distinct(Map(names, CanonicalOf()), IndexedKey(index))
  }

  /** The indexed names are pairwise distinct, and a name is among them
      exactly when it is indexed and is the canonical form of one of the
      names. */
  lemma IndexedNamesMembers(names: seq<string>, index: PlaceIndex, c: string)
    ensures forall i, j :: 0 <= i < j < |IndexedNames(names, index)| ==>
      IndexedNames(names, index)[i] != IndexedNames(names, index)[j]
    ensures c in IndexedNames(names, index) <==> c in index.entries && c in Map(names, CanonicalOf())
  {
    DistinctMembers(Map(names, CanonicalOf()), IndexedKey(index), c);
  }

  /** `scheduled`: the canonical names of every block of every day. */
  function Scheduled(days: seq<seq<Block>>): set<string> {
    set d, k | 0 <= d < |days| && 0 <= k < |days[d]| :: Canonical(days[d][k].place)
  }

  function Unscheduled(scheduled: set<string>): string -> bool {
    (c: string) => c !in scheduled
  }

  /** `missing`: the mandatory names no day schedules yet. */
  function Missing(days: seq<seq<Block>>, mandatory: seq<string>, index: PlaceIndex): seq<string> {
    Filter(IndexedNames(mandatory, index), Unscheduled(Scheduled(days)))
  }

  /** The block that brings a missing place in. */
  function MandatoryBlock(index: PlaceIndex, c: string): Block {
    Block("", if c in index.entries then index.entries[c].name else "", MandatoryReason)
  }

  // ---------------------------------------------------------------------
  // Round-robin placement
  // ---------------------------------------------------------------------

  /** A day with fewer than four blocks can take one more. */
  predicate Open(day: seq<Block>) {
    |day| < 4
  }

  /** The day after `c`, wrapping round: `(c + 1) % n`. */
  function Next(n: nat, c: nat): (r: nat)
    requires c < n
    ensures r < n && r == (c + 1) % n
  {
    if c + 1 < n then c + 1 else 0
  }

  /** The day `s` steps after `cursor`, cyclically. */
  function DayAt(n: nat, cursor: nat, s: nat): (r: nat)
    requires cursor < n
    ensures r < n
  {
    if s == 0 then cursor else Next(n, DayAt(n, cursor, s - 1))
  }

  /** How many steps from `cursor` the first open day is, trying the steps
      `s` to `tries - 1`. */
  function FindOpen(days: seq<seq<Block>>, cursor: nat, s: nat, tries: nat): (r: Option<nat>)
    requires cursor < |days|
    ensures r.Some? ==> s <= r.value < tries && Open(days[DayAt(|days|, cursor, r.value)])
    ensures r.Some? ==> forall t :: s <= t < r.value ==> !Open(days[DayAt(|days|, cursor, t)])
    ensures r.None? ==> forall t :: s <= t < tries ==> !Open(days[DayAt(|days|, cursor, t)])
    decreases tries - s
  {
    if s >= tries then None
    else if Open(days[DayAt(|days|, cursor, s)]) then Some(s)
    else FindOpen(days, cursor, s + 1, tries)
  }

  /** One missing place: to the front of the first open day at or after
      the cursor, moving the cursor past it; with every day full, to the
      front of the first day, which keeps only its first three blocks, with
      the cursor where it was. */
  function InsertOne(days: seq<seq<Block>>, cursor: nat, b: Block): (r: (seq<seq<Block>>, nat))
    requires cursor < |days|
    ensures |r.0| == |days| && r.1 < |days|
  {
    match FindOpen(days, cursor, 0, |days|)
    case Some(s) =>
      var d := DayAt(|days|, cursor, s);
      (days[d := [b] + days[d]], Next(|days|, d))
    case None =>
      (days[0 := [b] + Take(days[0], 3)], cursor)
  }

  /** The blocks, one after the other, from the cursor. */
  function InsertAll(days: seq<seq<Block>>, cursor: nat, blocks: seq<Block>): (r: seq<seq<Block>>)
    requires cursor < |days|
    ensures |r| == |days|
    decreases |blocks|
  {
    if blocks == [] then days
    else
      var (days', cursor') := InsertOne(days, cursor, blocks[0]);
      InsertAll(days', cursor', blocks[1..])
  }

  function BlockFor(index: PlaceIndex): string -> Block {
    (c: string) => MandatoryBlock(index, c)
  }

  /** What `_insert_mandatory_places` leaves in the days. */
  function InsertMandatory(days: seq<seq<Block>>, mandatory: seq<string>, index: PlaceIndex): (r: seq<seq<Block>>)
    ensures |r| == |days|
  {
    if days == [] then days else InsertAll(days, 0, Map(Missing(days, mandatory, index), BlockFor(index)))
  }

  // ---------------------------------------------------------------------
  // The procedure
  // ---------------------------------------------------------------------

  /** Stepping is linear until the end of the days. */
  lemma {:induction false} DayAtLinear(n: nat, c: nat, s: nat)
    requires c + s < n
    ensures DayAt(n, c, s) == c + s
  {
    if s > 0 {
      DayAtLinear(n, c, s - 1);
    }
  }

  lemma {:induction false} DayAtShift(n: nat, c: nat, s: nat, t: nat)
    requires c < n
    ensures DayAt(n, c, s + t) == DayAt(n, DayAt(n, c, s), t)
  {
    if t > 0 {
      DayAtShift(n, c, s, t - 1);
    }
  }

  /** After one step per day the cursor is back where it started. */
  lemma DayAtRound(n: nat, c: nat)
    requires c < n
    ensures DayAt(n, c, n) == c
  {
    DayAtLinear(n, c, n - c - 1);
    DayAtShift(n, c, n - c, c);
    DayAtLinear(n, 0, c);
  }

  /** The inner loop: try each day once from the cursor. */
  method PlaceBlock(days: array<seq<Block>>, start: nat, b: Block) returns (cursor: nat)
    requires start < days.Length
    modifies days
    ensures (days[..], cursor) == InsertOne(old(days[..]), start, b)
  {
    ghost var before := days[..];
    var n := days.Length;
    cursor := start;
    var j := 0;
    while j < n
      invariant 0 <= j <= n
      invariant days[..] == before
      invariant cursor == DayAt(n, start, j)
      invariant FindOpen(before, start, 0, n) == FindOpen(before, start, j, n)
    {
      if |days[cursor]| < 4 {
        days[cursor] := [b] + days[cursor];
        cursor := (cursor + 1) % n;
        return;
      }
      cursor := (cursor + 1) % n;
      j := j + 1;
    }
    DayAtRound(n, start);
    days[0] := [b] + Take(days[0], 3);
  }

  /** The loop over the missing places, each placed from where the last
      one left the cursor. */
  method PlaceAll(days: array<seq<Block>>, blocks: seq<Block>)
    requires days.Length > 0
    modifies days
    ensures days[..] == InsertAll(old(days[..]), 0, blocks)
  {
    ghost var before := days[..];
    var dayIdx: nat := 0;
    var i := 0;
    while i < |blocks|
      invariant 0 <= i <= |blocks| && dayIdx < days.Length
      invariant InsertAll(days[..], dayIdx, blocks[i..]) == InsertAll(before, 0, blocks)
    {
      assert blocks[i..][1..] == blocks[i + 1..];
      dayIdx := PlaceBlock(days, dayIdx, blocks[i]);
      i := i + 1;
    }
  }

  /** `_insert_mandatory_places`. */
  method InsertMandatoryPlaces(days: array<seq<Block>>, mandatory: seq<string>, index: PlaceIndex)
    modifies days
    ensures days[..] == InsertMandatory(old(days[..]), mandatory, index)
  {
    if days.Length == 0 {
      return;
    }
    var names := DistinctMapLoop(mandatory, CanonicalOf(), IndexedKey(index));
    var scheduled := Scheduled(days[..]);
    var missing := Filter(names, Unscheduled(scheduled));
    if missing == [] {
      return;
    }
    PlaceAll(days, Map(missing, BlockFor(index)));
  }

  // ---------------------------------------------------------------------
  // Properties
  // ---------------------------------------------------------------------

  /** The cap holds: placing a block never takes a day past four blocks. */
  lemma InsertOneBounded(days: seq<seq<Block>>, cursor: nat, b: Block)
    requires cursor < |days|
    requires forall d :: 0 <= d < |days| ==> |days[d]| <= 4
    ensures forall d :: 0 <= d < |InsertOne(days, cursor, b).0| ==> |InsertOne(days, cursor, b).0[d]| <= 4
  {
  }

  lemma {:induction false} InsertAllBounded(days: seq<seq<Block>>, cursor: nat, blocks: seq<Block>)
    requires cursor < |days|
    requires forall d :: 0 <= d < |days| ==> |days[d]| <= 4
    ensures forall d :: 0 <= d < |days| ==> |InsertAll(days, cursor, blocks)[d]| <= 4
    decreases |blocks|
  {
    if blocks != [] {
      InsertOneBounded(days, cursor, blocks[0]);
      var (days', cursor') := InsertOne(days, cursor, blocks[0]);
      InsertAllBounded(days', cursor', blocks[1..]);
    }
  }

  /** Inserting mandatory places keeps the number of days and never makes
      a day exceed four blocks. */
  lemma InsertMandatoryBounded(days: seq<seq<Block>>, mandatory: seq<string>, index: PlaceIndex)
    requires forall d :: 0 <= d < |days| ==> |days[d]| <= 4
    ensures |InsertMandatory(days, mandatory, index)| == |days|
    ensures forall d :: 0 <= d < |days| ==> |InsertMandatory(days, mandatory, index)[d]| <= 4
  {
    if days != [] {
      InsertAllBounded(days, 0, Map(Missing(days, mandatory, index), BlockFor(index)));
    }
  }

  /** The days are left as they are when there is no day or every
      mandatory place is already scheduled. */
  lemma InsertMandatoryUntouched(days: seq<seq<Block>>, mandatory: seq<string>, index: PlaceIndex)
    requires days == [] || forall c :: c in IndexedNames(mandatory, index) ==> c in Scheduled(days)
    ensures InsertMandatory(days, mandatory, index) == days
  {
    if days != [] {
      var missing := Missing(days, mandatory, index);
      if missing != [] {
        FilterMembers(IndexedNames(mandatory, index), Unscheduled(Scheduled(days)), missing[0]);
        assert false;
      }
    }
  }

  lemma {:induction false} FindOpenFirst(days: seq<seq<Block>>, cursor: nat, s: nat, tries: nat, first: nat)
    requires cursor < |days| && s <= first < tries
    requires Open(days[DayAt(|days|, cursor, first)])
    requires forall t :: s <= t < first ==> !Open(days[DayAt(|days|, cursor, t)])
    ensures FindOpen(days, cursor, s, tries) == Some(first)
    decreases first - s
  {
    if s < first {
      FindOpenFirst(days, cursor, s + 1, tries, first);
    }
  }

  lemma {:induction false} FindOpenNone(days: seq<seq<Block>>, cursor: nat, s: nat, tries: nat)
    requires cursor < |days|
    requires forall t :: s <= t < tries ==> !Open(days[DayAt(|days|, cursor, t)])
    ensures FindOpen(days, cursor, s, tries) == None
    decreases tries - s
  {
    if s < tries {
      FindOpenNone(days, cursor, s + 1, tries);
    }
  }

  /** Round-robin: the block goes to the front of the first open day
      counting from the cursor, which then moves to the day after; only
      that day changes. */
  lemma InsertOneRoundRobin(days: seq<seq<Block>>, cursor: nat, b: Block, s: nat)
    requires cursor < |days|
    requires s < |days| && Open(days[DayAt(|days|, cursor, s)])
    requires forall t :: 0 <= t < s ==> !Open(days[DayAt(|days|, cursor, t)])
    ensures InsertOne(days, cursor, b).0 == days[DayAt(|days|, cursor, s) := [b] + days[DayAt(|days|, cursor, s)]]
    ensures InsertOne(days, cursor, b).1 == (DayAt(|days|, cursor, s) + 1) % |days|
  {
    FindOpenFirst(days, cursor, 0, |days|, s);
    InsertOneFound(days, cursor, b, s);
  }

  lemma InsertOneFound(days: seq<seq<Block>>, cursor: nat, b: Block, s: nat)
    requires cursor < |days|
    requires FindOpen(days, cursor, 0, |days|) == Some(s)
    ensures InsertOne(days, cursor, b).0 == days[DayAt(|days|, cursor, s) := [b] + days[DayAt(|days|, cursor, s)]]
    ensures InsertOne(days, cursor, b).1 == (DayAt(|days|, cursor, s) + 1) % |days|
  {
  }

  /** With every day full, the block replaces the last of the first day's
      first four blocks: the first day becomes the block followed by its
      first three blocks, and the cursor stays. */
  lemma InsertOneForced(days: seq<seq<Block>>, cursor: nat, b: Block)
    requires cursor < |days|
    requires forall d :: 0 <= d < |days| ==> |days[d]| >= 4
    ensures InsertOne(days, cursor, b) == (days[0 := [b] + days[0][..3]], cursor)
  {
    FindOpenNone(days, cursor, 0, |days|);
  }

  /** Right after it is placed, the block opens one of the days. */
  lemma InsertOneSchedules(days: seq<seq<Block>>, cursor: nat, b: Block)
    requires cursor < |days|
    ensures exists d :: 0 <= d < |days| && InsertOne(days, cursor, b).0[d] != [] && InsertOne(days, cursor, b).0[d][0] == b
  {
    match FindOpen(days, cursor, 0, |days|)
    case Some(s) =>
      var d := DayAt(|days|, cursor, s);
      assert InsertOne(days, cursor, b).0[d][0] == b;
    case None =>
      assert InsertOne(days, cursor, b).0[0][0] == b;
  }

  /** Placing blocks brings in no block but the placed ones: whatever holds
      of every block before and of every placed block holds of every block
      after. */
  lemma InsertOneKeeps(days: seq<seq<Block>>, cursor: nat, b: Block, ok: Block -> bool)
    requires cursor < |days|
    requires forall d, k :: 0 <= d < |days| && 0 <= k < |days[d]| ==> ok(days[d][k])
    requires ok(b)
    ensures forall d, k :: 0 <= d < |days| && 0 <= k < |InsertOne(days, cursor, b).0[d]| ==> ok(InsertOne(days, cursor, b).0[d][k])
  {
    var r := InsertOne(days, cursor, b).0;
    forall d, k | 0 <= d < |days| && 0 <= k < |r[d]|
      ensures ok(r[d][k])
    {
      if k > 0 && r[d] != days[d] {
        assert r[d][k] in days[d];
      }
    }
  }

  lemma {:induction false} InsertAllKeeps(days: seq<seq<Block>>, cursor: nat, blocks: seq<Block>, ok: Block -> bool)
    requires cursor < |days|
    requires forall d, k :: 0 <= d < |days| && 0 <= k < |days[d]| ==> ok(days[d][k])
    requires forall k :: 0 <= k < |blocks| ==> ok(blocks[k])
    ensures forall d, k :: 0 <= d < |days| && 0 <= k < |InsertAll(days, cursor, blocks)[d]| ==> ok(InsertAll(days, cursor, blocks)[d][k])
    decreases |blocks|
  {
    if blocks != [] {
      InsertOneKeeps(days, cursor, blocks[0], ok);
      var (days', cursor') := InsertOne(days, cursor, blocks[0]);
      InsertAllKeeps(days', cursor', blocks[1..], ok);
    }
  }

  /** A property every block already has and every mandatory block would
      have still holds of every block after the insertion. */
  lemma InsertMandatoryKeeps(days: seq<seq<Block>>, mandatory: seq<string>, index: PlaceIndex, ok: Block -> bool)
    requires forall d, k :: 0 <= d < |days| && 0 <= k < |days[d]| ==> ok(days[d][k])
    requires forall c :: c in index.entries ==> ok(MandatoryBlock(index, c))
    ensures forall d, k :: 0 <= d < |days| && 0 <= k < |InsertMandatory(days, mandatory, index)[d]| ==>
      ok(InsertMandatory(days, mandatory, index)[d][k])
  {
    if days != [] {
      var missing := Missing(days, mandatory, index);
      var blocks := Map(missing, BlockFor(index));
      forall k | 0 <= k < |blocks|
        ensures ok(blocks[k])
      {
        FilterMembers(IndexedNames(mandatory, index), Unscheduled(Scheduled(days)), missing[k]);
        IndexedNamesMembers(mandatory, index, missing[k]);
      }
      InsertAllKeeps(days, 0, blocks, ok);
    }
  }

  /** In a well-keyed index, the block for an indexed name names a place
      that looks that name up again. */
  lemma MandatoryBlockIndexed(index: PlaceIndex, c: string)
    requires WellKeyed(index) && c in index.entries
    ensures Lookup(index, MandatoryBlock(index, c).place) == Some(index.entries[c])
  {
    LookupStoredName(index, c);
  }
}
