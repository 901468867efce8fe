/** Fixed start-time templates and visit lengths for a day's blocks
    (`_apply_visit_durations` in `services/final_route_architect.py`). */
module Timing {
  import opened Wrappers
  import opened Seqs
  import opened Catalog
  import opened TimeSlots
  import opened DayBlocks

  /** A block with its final time window and the place's image. */
  datatype TimedBlock = TimedBlock(time: string, place: string, reason: string, imageUrl: string)

  /** The start minutes used for a day with `count` blocks. */
  function StartTemplates(count: nat): (r: seq<nat>)
    ensures |r| == if count >= 4 then 4 else count
    ensures forall k :: 0 <= k < |r| ==> 480 <= r[k] <= 1020
  {
    if count >= 4 then [480, 630, 840, 1020]
    else if count == 3 then [510, 750, 990]
    else if count == 2 then [510, 990]
    else if count == 1 then [540]
    else []
  }

  /** The start of the block at `idx`: its template entry, or 09:00 past
      the end of the template. */
  function StartOf(count: nat, idx: nat): (r: nat)
    ensures 480 <= r <= 1020
  {
    var t := StartTemplates(count);
    if idx < |t| then t[idx] else 540
  }

  /** The place's name, category and image as the source reads them with
      `place_index.get(..., {})`: empty for a place missing from the index. */
  function PlaceFacts(index: PlaceIndex, place: string): (string, string, string) {
    match Lookup(index, place)
    case Some(p) => (p.name, p.category, p.imageUrl)
    case None => ("", "", "")
  }

  /** 90 minutes for an extended visit, 60 otherwise. */
  function Duration(index: PlaceIndex, place: string): (r: nat)
    ensures r == 60 || r == 90
  {
    var (name, category, _) := PlaceFacts(index, place);
    if IsExtendedVisit(name, category) then 90 else 60
  }

  function TimeBlock(index: PlaceIndex, count: nat, idx: nat, b: Block): TimedBlock {
    TimedBlock(FormatSlot(StartOf(count, idx), Duration(index, b.place)), b.place, b.reason, PlaceFacts(index, b.place).2)
  }

  function Timer(index: PlaceIndex, count: nat): (nat, Block) -> TimedBlock {
    (idx: nat, b: Block) => TimeBlock(index, count, idx, b)
  }

  /** `_apply_visit_durations`: the same blocks in the same order, each
      retimed from the template for the day's block count. */
  method ApplyVisitDurations(blocks: seq<Block>, index: PlaceIndex) returns (timed: seq<TimedBlock>)
    ensures timed == MapIndexed(blocks, Timer(index, |blocks|))
  {
    timed := MapIndexedLoop(blocks, Timer(index, |blocks|));
  }

  /** Retiming keeps the number, order, places and reasons of the blocks. */
  lemma RetimingKeepsBlocks(blocks: seq<Block>, index: PlaceIndex, i: nat)
    requires i < |blocks|
    ensures |MapIndexed(blocks, Timer(index, |blocks|))| == |blocks|
    ensures MapIndexed(blocks, Timer(index, |blocks|))[i].place == blocks[i].place
    ensures MapIndexed(blocks, Timer(index, |blocks|))[i].reason == blocks[i].reason
    ensures MapIndexed(blocks, Timer(index, |blocks|))[i].time
         == FormatSlot(StartOf(|blocks|, i), Duration(index, blocks[i].place))
  {
  }

  /** For one to four blocks, even two 90-minute visits in a row leave at
      least a 20-minute transit gap before the next start, so no two
      windows overlap; the last visit ends by 18:30. */
  lemma TemplatesLeaveGaps(count: nat, i: nat, j: nat)
    requires 1 <= count <= 4 && i < j < count
    ensures StartOf(count, i) + 90 + 20 <= StartOf(count, j)
    ensures StartOf(count, j) + 90 <= 18 * 60 + 30
  {
  }

  /** Each timed block's window reads back as its template start, so the
      blocks of a day are in increasing start order. */
  lemma TimedStartReadsBack(index: PlaceIndex, count: nat, idx: nat, b: Block)
    ensures ParseStartHour(TimeBlock(index, count, idx, b).time) == StartOf(count, idx) as real / 60.0
  {
    var start, d := StartOf(count, idx), Duration(index, b.place);
    ParseFormatRoundTrip(start, d);
    assert TimeBlock(index, count, idx, b).time == FormatSlot(start, d);
  }

  /** Of a full day, the first two visits start before 13:00 and the last
      two after. */
  lemma FullDayStarts(count: nat, idx: nat)
    requires count >= 4 && idx < 4
    ensures StartOf(count, idx) < 13 * 60 <==> idx < 2
  {
  }

  /** So a full day's first two blocks are morning blocks and its last two
      afternoon blocks. */
  lemma FullDayHalves(index: PlaceIndex, count: nat, idx: nat, b: Block)
    requires count >= 4 && idx < 4
    ensures ParseStartHour(TimeBlock(index, count, idx, b).time) < 13.0 <==> idx < 2
  {
    TimedStartReadsBack(index, count, idx, b);
    FullDayStarts(count, idx);
  }

  /** A block past the fourth starts at the default 09:00. */
  lemma ExtraBlocksAtNine(count: nat, idx: nat)
    requires idx >= 4
    ensures StartOf(count, idx) == 540
  {
  }
}
