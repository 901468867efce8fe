# Travel planner: the itinerary repair engine, in Dafny

This project models the deterministic core of an AI travel planner. A
language model proposes a day-by-day plan. The route architect
(`travel_ai/services/final_route_architect.py`) repairs that plan so it
always comes out valid:

- it keeps only the first four blocks of a day, and of those only the ones
  whose place is in the verified catalog;
- within each half-day it drops places more than 8 km from those already kept;
- a far (more than 15 km from the catalog centroid), high-effort place gets
  a day of its own;
- an empty day gets the best-rated catalog place not yet used;
- visits get fixed start templates and 60- or 90-minute lengths;
- every day gets exactly four meals;
- the top-ranked mandatory places are inserted round-robin;
- day and trip costs are computed against the budget.

The modules around it are modelled as well:

- the planning tools (cost parsing, transport and budget estimates, effort
  classification, proximity clustering);
- the discovery agents (JSON span extraction, ranking, first-wins merge);
- the itinerary cache key;
- the food-outlet sanitiser;
- the place-detail helpers;
- the front end's response normalisation, day card and place icon;
- the plan evaluator.

Each module is one Dafny module. The route architect is split by
component:

- `Catalog`: the place and food indexes and the centroid;
- `DayBlocks`: one day's repair;
- `Timing` and `TimeSlots`: the visit times;
- `Meals`: the four meals;
- `Mandatory`: the insertion of mandatory places;
- `Itinerary`: the whole plan and its costs.

`Names`, `Text`, `Dicts`, `Seqs` and `Sorting` hold what the Python and
TypeScript code takes from the language:

- canonical names and whitespace;
- insertion-ordered dictionaries;
- list comprehensions;
- stable sorts.

Pure code is written as functions. Code that builds its result with loops
is written as methods, each proved equal to its function. This covers:

- the index loops;
- the half-day pruning with its early exit;
- the far-place scan with its early return;
- the fallback cursor.

The clustering's depth-first search (its stack and visited set) is a
method too, but it is not proved equal to a function: the order of the
places inside a cluster follows the stack, and the model does not state
it. Instead the contract pins down which places share a cluster: they partition the
valid places, each is closed under reach, and each is linked (every member
after the first is within reach of an earlier one). Together these make
the clusters exactly the connected components of the "within
`maxDistance`" graph, listed in search order and then by size.

`_insert_mandatory_places` mutates the day list in place, so it is a method
on an array of days, with a round-robin cursor.

Great-circle distance is a parameter `dist`. It is required to be symmetric
only where the clustering needs it. The properties are stated against the
source's thresholds: 3, 8 and 15 km.

## Model

| member | source | states |
|---|---|---|
| Names.Canonical | travel_ai/services/agents.py:26-27 | `_canonical_name`; see CanonicalShape, CanonicalIdempotent, CanonicalIgnoresCase |
| Names.WordsOfCanonicalInput | travel_ai/services/final_route_architect.py:25-26 | the words of the stripped, lowered name are non-empty, blank-free and lower-case |
| Names.CanonicalShape | travel_ai/services/agents.py:26-27 | the canonical name is lower-case, has no leading or trailing blank and single spaces between words |
| Names.CanonicalIdempotent | travel_ai/services/agents.py:26-27 | canonicalising a canonical name changes nothing |
| Names.CanonicalIgnoresCase | travel_ai/services/final_route_architect.py:25-26 | names equal up to case have one canonical name |
| Names.CanonicalIgnoresStrip | travel_ai/services/final_route_architect.py:25-26 | surrounding blanks do not change the canonical name |
| Names.WordsEmptyIff | travel_ai/services/agents.py:27 | `split()` gives no words exactly when the text is all blanks |
| Names.CanonicalEmptyIff | travel_ai/services/agents.py:26-27 | the canonical name is empty exactly when the name is blank |
| Text.Lower | travel_ai/services/final_route_architect.py:26 | lowering keeps the length and lowers every character |
| Text.LowerIdempotent | travel_ai/services/final_route_architect.py:26 | a lowered text is lower-case, and lowering it again changes nothing |
| Text.Trim | travel_ai/services/final_route_architect.py:26 | the trimmed text is a slice of the input with no blank at either end |
| Text.TrimIdempotent | travel_ai/services/final_route_architect.py:26 | trimming twice is trimming once |
| Text.TrimEmptyIff | travel_ai/services/final_route_architect.py:130 | the trimmed text is empty exactly when the input is all blanks |
| Text.JsTrimIsTrim | travel-ai-frontend/services/api.ts:34 | JavaScript's `trim()` removes its blanks from both ends |
| Text.JsTrimIdempotent | travel-ai-frontend/services/api.ts:34 | trimming twice is trimming once |
| Text.StripLower | travel_ai/services/final_route_architect.py:26 | stripping and lowering commute |
| Text.ContainsIff | travel_ai/services/final_route_architect.py:58-64 | a keyword is contained exactly when it occurs at some position |
| Text.BeforeSep | travel_ai/services/final_route_architect.py:31 | the first piece of a split is the longest prefix without the separator |
| Text.SplitOn | travel-ai-frontend/services/api.ts:34 | the pieces of a split hold no separator, and the first is the part before the first separator |
| Text.SplitOnHasSep | travel-ai-frontend/services/api.ts:42 | a split gives a second piece exactly when the separator occurs |
| Text.Title | travel_ai/services/final_route_architect.py:158 | title-casing keeps the length |
| Text.TitleMatchesIgnoringCase | travel_ai/services/final_route_architect.py:158-160 | the title-cased text equals a title word exactly when both agree ignoring case |
| Text.NatToString | travel_ai/services/final_route_architect.py:42 | a number's decimal text is non-empty digits with that value and no leading zero |
| Text.Pad2 | travel_ai/services/final_route_architect.py:42 | `:02d` gives at least two digits with the number's value |
| Dicts.Put | travel_ai/services/final_route_architect.py:77 | assigning a key sets its value; a new key goes to the end of the insertion order, and an existing one keeps its place |
| Dicts.PutValid | travel_ai/services/final_route_architect.py:77 | assignment keeps the keys distinct and all present |
| Dicts.Values | travel_ai/services/final_route_architect.py:195 | `values()` lists one value per key, in insertion order |
| Dicts.BuildPrefix | travel_ai/services/final_route_architect.py:70-77 | one loop step assigns the entry of the current item when it is kept |
| Dicts.BuildLoop | travel_ai/services/final_route_architect.py:70-77 | the loop that fills a dictionary equals `Build`, the fold of assignments over the kept items; its keys and values are the `Build` lemmas |
| Dicts.BuildValid | travel_ai/services/final_route_architect.py:70-77 | the dictionary built has distinct keys, all present |
| Dicts.BuildKeys | travel_ai/services/final_route_architect.py:70-77 | a key is present exactly when some kept item has it |
| Dicts.BuildLastWins | travel_ai/services/final_route_architect.py:77 | the last kept item with a key gives its value |
| Dicts.BuildEntryFrom | travel_ai/services/final_route_architect.py:77 | every value comes from a kept item with that key |
| Dicts.BuildKeysPrefix | travel_ai/services/final_route_architect.py:70-77 | items added later never reorder the keys already there |
| Catalog.BuildPlaceIndex | travel_ai/services/final_route_architect.py:68-87 | the loop equals `Build` over the discovery places; which names are keys, which place wins and where coordinates come from are the `PlaceIndex` lemmas |
| Catalog.PlaceIndexWellKeyed | travel_ai/services/final_route_architect.py:73-86 | every entry is stored under the canonical form of its own name |
| Catalog.PlaceIndexKeys | travel_ai/services/final_route_architect.py:70-76 | a canonical name is a key exactly when some place with that name has a non-empty canonical name and numeric lat and lng |
| Catalog.PlaceIndexLastWins | travel_ai/services/final_route_architect.py:77 | a kept place that no later kept place shares a canonical name with is the entry for its name: later places overwrite earlier ones |
| Catalog.PlaceIndexLocated | travel_ai/services/final_route_architect.py:72-80 | every entry's coordinates are those of some place that had numeric lat and lng |
| Catalog.CleanSlots | travel_ai/services/final_route_architect.py:129 | the cleaned meal slots are no more than the given ones and none is empty; a text is a cleaned slot exactly when it is the non-empty strip of some given slot |
| Catalog.BuildFoodIndex | travel_ai/services/final_route_architect.py:119-133 | the loop equals `Build` over the food outlets; which names are keys is `FoodIndexKeys` |
| Catalog.FoodIndexKeys | travel_ai/services/final_route_architect.py:121-126 | a canonical name is a key exactly when it is non-empty and is the canonical name of some outlet |
| Catalog.MeanLatLngInBox | travel_ai/services/final_route_architect.py:194-200 | when every indexed place lies in a box, the mean point lies in it too |
| Catalog.MeanInBounds | travel_ai/services/final_route_architect.py:198-199 | the mean of values between two bounds lies between them |
| TimeSlots.TwoDigits | travel_ai/services/final_route_architect.py:31-32 | two digits read as a number |
| TimeSlots.HourBound | travel_ai/services/final_route_architect.py:32 | an accepted hour is below 24 |
| TimeSlots.MinuteBound | travel_ai/services/final_route_architect.py:32 | an accepted minute is below 60 |
| TimeSlots.StrpHourMinute | travel_ai/services/final_route_architect.py:32 | a text is accepted exactly when it is an hour, a colon and a minute in range |
| TimeSlots.ParseStartHour | travel_ai/services/final_route_architect.py:29-35 | the start hour lies in [0, 24) |
| TimeSlots.Clock | travel_ai/services/final_route_architect.py:38-42 | a clock text holds no dash |
| TimeSlots.Pad2Small | travel_ai/services/final_route_architect.py:42 | a number below 100 is written as two digits |
| TimeSlots.BeforeSepAt | travel_ai/services/final_route_architect.py:31 | the text before the first separator is the part before it |
| TimeSlots.DigitsNoSep | travel_ai/services/final_route_architect.py:31-42 | digits hold no separator |
| TimeSlots.StartText | travel_ai/services/final_route_architect.py:31-42 | the start of a formatted slot is the clock text of its start minutes |
| TimeSlots.StripClock | travel_ai/services/final_route_architect.py:31 | stripping a clock text leaves it unchanged |
| TimeSlots.StrpPadded | travel_ai/services/final_route_architect.py:32-42 | a padded hour and minute in range parse back to themselves |
| TimeSlots.ParseFormatRoundTrip | travel_ai/services/final_route_architect.py:29-42 | parsing the start of a formatted slot gives its start minutes in hours |
| TimeSlots.MalformedStartIsNine | travel_ai/services/final_route_architect.py:34-35 | a start that does not parse as hour and minute gives 9.0 |
| DayBlocks.IsHighEffort | travel_ai/services/final_route_architect.py:56-59 | `_is_high_effort`: the lowered text `name category effort_type` holds a high-effort keyword; see HighEffortByCategory, EmptyPlaceNotHighEffort |
| DayBlocks.IsExtendedVisit | travel_ai/services/final_route_architect.py:62-65 | `_is_extended_visit`: the lowered text `name category` holds an extended-visit keyword; see ExtendedByName, ExtendedByCategory, MissingPlaceNotExtended |
| DayBlocks.ExtendedByName | travel_ai/services/final_route_architect.py:62-65 | a keyword ("hill", "viewpoint", "cityscape", "fort", "trek", "sunset point", "peak") in the lowered name makes a place an extended visit, whatever its category |
| DayBlocks.ExtendedByCategory | travel_ai/services/final_route_architect.py:62-65 | a keyword in the lowered category makes a place an extended visit, whatever its name |
| DayBlocks.DayPlan | travel_ai/services/final_route_architect.py:203-262 | `_sanitize_day_blocks`: the day's known places, split into morning and afternoon blocks; see DayPlanBlocks, DayPlanHalves, DayPlanIsolates, DayPlanOpens |
| DayBlocks.HighEffortByCategory | travel_ai/services/final_route_architect.py:56-59 | a place whose lowered category contains a high-effort keyword is high-effort |
| DayBlocks.ShortTextMisses | travel_ai/services/final_route_architect.py:58-64 | a keyword longer than the text is not contained in it |
| DayBlocks.MissingPlaceNotExtended | travel_ai/services/final_route_architect.py:290-291 | a place missing from the index, seen as empty, is not an extended visit |
| DayBlocks.Lookup | travel_ai/services/final_route_architect.py:211-212 | a name is found exactly when its canonical form is a key of the index |
| DayBlocks.LookupStoredName | travel_ai/services/final_route_architect.py:217-236 | looking up the stored name of an entry finds that entry again |
| DayBlocks.ValidBlocksOrigin | travel_ai/services/final_route_architect.py:209-221 | every valid block comes from one of the first 4 raw blocks whose place is in the index |
| DayBlocks.ValidBlocksIndexed | travel_ai/services/final_route_architect.py:217 | a valid block's place is the stored name of an indexed place |
| DayBlocks.Prune | travel_ai/services/final_route_architect.py:233-250 | pruning keeps at most the blocks it is given |
| DayBlocks.PrunePrefix | travel_ai/services/final_route_architect.py:235-249 | one step of the loop: a block is appended when the kept list is empty or it is near every kept block |
| DayBlocks.PruneLoop | travel_ai/services/final_route_architect.py:234-250 | the loop with early exit computes the pruned list |
| DayBlocks.PruneSubset | travel_ai/services/final_route_architect.py:234-250 | every kept block is one of the blocks given |
| DayBlocks.PrunePairwise | travel_ai/services/final_route_architect.py:240-249 | any two kept blocks are near each other (within 8 km) |
| DayBlocks.PruneKeepsFirst | travel_ai/services/final_route_architect.py:237-239 | the first block is always kept |
| DayBlocks.PruneCompact | travel_ai/services/final_route_architect.py:234-250 | a list whose blocks are already pairwise near is kept whole |
| DayBlocks.FirstFar | travel_ai/services/final_route_architect.py:254-260 | the first far high-effort block, or none when no block is |
| DayBlocks.IsolateLoop | travel_ai/services/final_route_architect.py:253-262 | the loop with early return computes the isolated list |
| DayBlocks.IsolateAlone | travel_ai/services/final_route_architect.py:253-262 | a far high-effort block is alone on its day; otherwise the blocks are kept, each one of those given |
| DayBlocks.SanitizeDayBlocks | travel_ai/services/final_route_architect.py:203-262 | the method (first four blocks, index check, morning/afternoon split, pruning with early exit, far-place scan with early return) equals `DayPlan`, whose properties are `DayPlanBlocks`, `DayPlanHalves`, `DayPlanIsolates` and `DayPlanOpens` |
| DayBlocks.DayPlanFromValid | travel_ai/services/final_route_architect.py:203-262 | every block of the plan is a valid block |
| DayBlocks.PrunedFromValid | travel_ai/services/final_route_architect.py:227-250 | a block kept by the half-day pruning is a valid block |
| DayBlocks.DayPlanBlocks | travel_ai/services/final_route_architect.py:209-221 | the plan has at most 4 blocks, each checked from one of the first 4 raw blocks in the index, whose place is found again |
| DayBlocks.DayPlanHalves | travel_ai/services/final_route_architect.py:226-250 | in the plan morning blocks precede afternoon ones, and two blocks of the same half-day are within 8 km of each other |
| DayBlocks.HalvesOfPruned | travel_ai/services/final_route_architect.py:226-250 | the half-day pruning gives that order |
| DayBlocks.PruneSides | travel_ai/services/final_route_architect.py:232-250 | each half pruned keeps only blocks of that half, pairwise near |
| DayBlocks.JoinedHalves | travel_ai/services/final_route_architect.py:250 | joining the morning half and the afternoon half keeps the order of halves and the nearness within each |
| DayBlocks.DayPlanIsolates | travel_ai/services/final_route_architect.py:252-260 | when a pruned block is far and high-effort, the plan is exactly the first such block of the pruned list, and nothing else |
| DayBlocks.DayPlanOpens | travel_ai/services/final_route_architect.py:223-262 | with valid blocks and none far, the plan is non-empty and opens with the first morning block, or the first afternoon one when there is no morning; the first block of each half-day is always kept |
| Timing.StartTemplates | travel_ai/services/final_route_architect.py:278-287 | four start minutes for 4 or more blocks, otherwise one per block, all between 08:00 and 17:00 |
| Timing.StartOf | travel_ai/services/final_route_architect.py:292 | every block starts between 08:00 and 17:00 |
| Timing.Duration | travel_ai/services/final_route_architect.py:290-291 | a visit lasts 60 or 90 minutes |
| Timing.ApplyVisitDurations | travel_ai/services/final_route_architect.py:265-301 | the loop equals timing each block at its position with `TimeBlock`, whose effect is `RetimingKeepsBlocks` |
| Timing.RetimingKeepsBlocks | travel_ai/services/final_route_architect.py:289-300 | timing keeps the number of blocks, each block's place and reason, and gives block `i` the slot of its template start and its duration |
| Timing.TemplatesLeaveGaps | travel_ai/services/final_route_architect.py:278-287 | between two templated blocks there is room for a 90-minute visit and the 20-minute transit buffer, and the last visit ends by 18:30 |
| Timing.TimedStartReadsBack | travel_ai/services/final_route_architect.py:29-42 | parsing a timed block's start gives back its start minutes in hours |
| Timing.FullDayStarts | travel_ai/services/final_route_architect.py:278-279 | with 4 or more blocks the first two start in the morning and the last two in the afternoon |
| Timing.FullDayHalves | travel_ai/services/final_route_architect.py:278-279 | the same, read back through the start-hour parser |
| Timing.ExtraBlocksAtNine | travel_ai/services/final_route_architect.py:292 | blocks beyond the fourth start at 09:00 |
| Meals.NormalizeHalt | travel_ai/services/final_route_architect.py:162-175 | one food halt resolved against the food index; see LastHaltWins, ByMealConsistent |
| Meals.ByMeal | travel_ai/services/final_route_architect.py:156-175 | the halts keyed by meal type, a later halt replacing an earlier one; see ByMealConsistent, EnforceFourMeals, AutoFilledIff |
| Meals.FinalMeal | travel_ai/services/final_route_architect.py:178-190 | the halt kept for one meal slot, auto-filled when none was given; see FinalMealSlot, FillSlots |
| Meals.SlotIndex | travel_ai/services/final_route_architect.py:10-15 | the position of a meal type among the four meal slots, or none when it is not one of them |
| Meals.FirstServing | travel_ai/services/final_route_architect.py:137-138 | the first outlet whose meal slots list the meal type, or none when no outlet does |
| Meals.PickFallbackOutlet | travel_ai/services/final_route_architect.py:136-152 | the first outlet serving the meal when there is one; otherwise the first outlet; with no outlets the fixed placeholder |
| Meals.ByMealConsistent | travel_ai/services/final_route_architect.py:156-175 | every normalised meal is stored under its own meal type, with that slot's time |
| Meals.EnforceFourMeals | travel_ai/services/final_route_architect.py:155-191 | exactly four meals, in slot order, each with its slot's meal type and time, and each the normalised halt for that meal or the auto-filled fallback |
| Meals.FillSlots | travel_ai/services/final_route_architect.py:177-190 | the loop over the four slots yields that list |
| Meals.FinalMealSlot | travel_ai/services/final_route_architect.py:177-190 | the meal for slot `i` has that slot's meal type and time |
| Meals.LastHaltWins | travel_ai/services/final_route_architect.py:167 | the last usable halt of a meal type gives that meal |
| Meals.AutoFilledIff | travel_ai/services/final_route_architect.py:178-181 | a slot is auto-filled exactly when no usable halt has its meal type |
| Meals.MealTypeIgnoresCase | travel_ai/services/final_route_architect.py:158-160 | a halt's meal type matches a slot exactly when the stripped texts agree ignoring case |
| Mandatory.IndexedNames | travel_ai/services/final_route_architect.py:312-316 | the distinct canonical mandatory names present in the index; see IndexedNamesMembers |
| Mandatory.Missing | travel_ai/services/final_route_architect.py:318-324 | the indexed mandatory names no day schedules; see InsertMandatoryUntouched, InsertMandatoryBounded, InsertMandatoryKeeps |
| Mandatory.IndexedNamesMembers | travel_ai/services/final_route_architect.py:312-316 | the mandatory names considered are distinct, and are exactly the canonical names of the list that are in the place index |
| Mandatory.Next | travel_ai/services/final_route_architect.py:345-347 | the cursor moves to the next day, wrapping round |
| Mandatory.DayAt | travel_ai/services/final_route_architect.py:333-347 | the day tried after some steps from the cursor is a valid day |
| Mandatory.FindOpen | travel_ai/services/final_route_architect.py:333-347 | the scan finds the first day, from the cursor round-robin, with fewer than 4 blocks, and finds none only when every day tried is full |
| Mandatory.InsertOne | travel_ai/services/final_route_architect.py:329-361 | inserting one place keeps the number of days and leaves a valid cursor |
| Mandatory.InsertAll | travel_ai/services/final_route_architect.py:328-361 | inserting every missing place keeps the number of days |
| Mandatory.InsertMandatory | travel_ai/services/final_route_architect.py:304-361 | `_insert_mandatory_places` keeps the number of days |
| Mandatory.DayAtLinear | travel_ai/services/final_route_architect.py:345-347 | before wrapping, the day tried is the cursor plus the steps |
| Mandatory.DayAtShift | travel_ai/services/final_route_architect.py:345-347 | stepping twice is stepping by the sum |
| Mandatory.DayAtRound | travel_ai/services/final_route_architect.py:333-347 | a full round of `len(days)` steps returns the cursor to where it started |
| Mandatory.PlaceBlock | travel_ai/services/final_route_architect.py:329-361 | the loop for one place leaves the day array and the cursor as `InsertOne` gives them |
| Mandatory.PlaceAll | travel_ai/services/final_route_architect.py:328-361 | the loop over the missing places leaves the day array as `InsertAll` gives it |
| Mandatory.InsertMandatoryPlaces | travel_ai/services/final_route_architect.py:304-361 | the day array afterwards is `InsertMandatory` of the old days: bounded, round-robin and untouched when nothing is missing, by the lemmas below |
| Mandatory.InsertOneBounded | travel_ai/services/final_route_architect.py:336-361 | inserting one place never makes a day exceed 4 blocks |
| Mandatory.InsertAllBounded | travel_ai/services/final_route_architect.py:328-361 | inserting every missing place never makes a day exceed 4 blocks |
| Mandatory.InsertMandatoryBounded | travel_ai/services/final_route_architect.py:304-361 | the number of days is kept and no day exceeds 4 blocks |
| Mandatory.InsertMandatoryUntouched | travel_ai/services/final_route_architect.py:309-326 | with no days, or no indexed mandatory place missing, the days are untouched |
| Mandatory.FindOpenFirst | travel_ai/services/final_route_architect.py:333-346 | the scan stops at the first open day it reaches |
| Mandatory.FindOpenNone | travel_ai/services/final_route_architect.py:333-349 | when every day tried is full the scan finds nothing |
| Mandatory.InsertOneRoundRobin | travel_ai/services/final_route_architect.py:333-346 | a place goes to the front of the first non-full day from the cursor, and the cursor moves to the day after it |
| Mandatory.InsertOneFound | travel_ai/services/final_route_architect.py:333-346 | the same, stated for the day the scan finds |
| Mandatory.InsertOneForced | travel_ai/services/final_route_architect.py:349-361 | when every day is full the place is forced to the front of day 1, which keeps only its first 3 other blocks, and the cursor stays |
| Mandatory.InsertOneSchedules | travel_ai/services/final_route_architect.py:329-361 | after one insertion the place heads some day |
| Mandatory.InsertOneKeeps | travel_ai/services/final_route_architect.py:329-361 | a property of every block and of the inserted one holds of every block after the insertion |
| Mandatory.InsertAllKeeps | travel_ai/services/final_route_architect.py:328-361 | such a property survives inserting every missing place |
| Mandatory.InsertMandatoryKeeps | travel_ai/services/final_route_architect.py:304-361 | such a property survives `_insert_mandatory_places` when it holds of every mandatory block |
| Mandatory.MandatoryBlockIndexed | travel_ai/services/final_route_architect.py:330-343 | a mandatory block names its place as the index records it |
| Itinerary.DayCost | travel_ai/services/final_route_architect.py:364-367 | `_day_cost`: the allowance plus each distinct place's ticket price; see DayCostAtLeastAllowance, DayCostRepeatFree, DayCostAddsNew |
| Itinerary.FallbackOrder | travel_ai/services/final_route_architect.py:383-384 | the indexed places in fallback order; see FallbackOrderRanked |
| Itinerary.Walking | travel_ai/services/final_route_architect.py:409-426 | the day's walking estimate; see WalkingBounds |
| Itinerary.Sanitized | travel_ai/services/final_route_architect.py:370-452 | `_sanitize_itinerary` as a function; see SanitizedShape, SanitizedCostFloor, SanitizedBlocksIndexed |
| Itinerary.DayCostAtLeastAllowance | travel_ai/services/final_route_architect.py:364-367 | with non-negative ticket prices a day costs at least 1400 |
| Itinerary.DayCostRepeatFree | travel_ai/services/final_route_architect.py:365-366 | a place already on the day adds nothing to its cost |
| Itinerary.DayCostAddsNew | travel_ai/services/final_route_architect.py:365-366 | a new indexed place adds its ticket price, and a new unindexed one adds nothing |
| Itinerary.WalkingBounds | travel_ai/services/final_route_architect.py:409-426 | the walking estimate is non-negative; a lone high-effort place gives at least 4.5 and at least the proposal; otherwise at most 4.0 and exactly the proposal (3.0 when missing) when it lies in [0, 4] |
| Itinerary.EmptyPlaceNotHighEffort | travel_ai/services/final_route_architect.py:412-413 | a place missing from the index is not high-effort |
| Itinerary.FallbackOrderRanked | travel_ai/services/final_route_architect.py:383-384 | the fallback list is a permutation of the indexed places, sorted by non-increasing rating, ties in index order |
| Itinerary.FirstUnused | travel_ai/services/final_route_architect.py:394-399 | the fallback found is the first one from the cursor whose canonical name is unused |
| Itinerary.Pick | travel_ai/services/final_route_architect.py:393-406 | an empty day takes that fallback and moves the cursor past it, adding its name to the used set; no pick leaves the used set unchanged |
| Itinerary.PickLoop | travel_ai/services/final_route_architect.py:393-406 | the `while` loop computes that pick |
| Itinerary.Picks | travel_ai/services/final_route_architect.py:389-406 | one pick per day, only for empty days, each a valid fallback position |
| Itinerary.PicksFresh | travel_ai/services/final_route_architect.py:393-406 | a pick lies at or after the cursor and its name was not used before |
| Itinerary.PicksNeverRepeat | travel_ai/services/final_route_architect.py:385-406 | later days pick later fallbacks with different canonical names: no fallback is repeated |
| Itinerary.Empties | travel_ai/services/final_route_architect.py:393 | one flag per day |
| Itinerary.WithFallbacks | travel_ai/services/final_route_architect.py:389-406 | the fallback pass keeps the number of days |
| Itinerary.ApplyFallbacks | travel_ai/services/final_route_architect.py:389-406 | the loop with its fallback cursor equals `WithFallbacks`, whose effect is `WithFallbacksDays` |
| Itinerary.PicksStep | travel_ai/services/final_route_architect.py:393-406 | the picks from day `d` on are the pick of day `d` followed by the picks after it |
| Itinerary.WithFallbacksDays | travel_ai/services/final_route_architect.py:393-406 | a non-empty day keeps its blocks; an empty day gets a single fallback block when one is left, and stays empty otherwise |
| Itinerary.RawDays | travel_ai/services/final_route_architect.py:389-390 | exactly `num_days` raw days, missing ones empty |
| Itinerary.PlanEachDay | travel_ai/services/final_route_architect.py:389-391 | the loop repairs every day's blocks with `_sanitize_day_blocks` |
| Itinerary.Planned | travel_ai/services/final_route_architect.py:389-406 | one block list per day |
| Itinerary.MealsOf | travel_ai/services/final_route_architect.py:408 | four meals per day |
| Itinerary.Drafts | travel_ai/services/final_route_architect.py:408-431 | one draft per day |
| Itinerary.DraftDay | travel_ai/services/final_route_architect.py:408-431 | a day's draft holds its meals, walking estimate and flow text |
| Itinerary.DraftEach | travel_ai/services/final_route_architect.py:389-431 | the loop drafts every day: flow, walking estimate and meals |
| Itinerary.Days | travel_ai/services/final_route_architect.py:435-437 | one finished day per day |
| Itinerary.FinishDays | travel_ai/services/final_route_architect.py:435-437 | the loop times every day's blocks and recomputes its cost |
| Itinerary.SanitizedDays | travel_ai/services/final_route_architect.py:370-437 | exactly `num_days` days |
| Itinerary.SanitizeDays | travel_ai/services/final_route_architect.py:379-437 | the steps of `_sanitize_itinerary` produce `SanitizedDays`, whose shape is `SanitizedDaysShape` |
| Itinerary.PlaceMandatory | travel_ai/services/final_route_architect.py:433 | the in-place insertion, run on an array copy of the days, gives `InsertMandatory` of them |
| Itinerary.SanitizeItinerary | travel_ai/services/final_route_architect.py:370-452 | `_sanitize_itinerary` produces `Sanitized`, whose properties are `SanitizedShape`, `SanitizedCostFloor` and `SanitizedBlocksIndexed` |
| Itinerary.FallbackPicks | travel_ai/services/final_route_architect.py:389-406 | one pick per day |
| Itinerary.PlannedDay | travel_ai/services/final_route_architect.py:389-406 | a planned day has at most 4 blocks; it keeps its sanitised blocks when there are some, and otherwise holds the single fallback picked, or stays empty |
| Itinerary.FallbacksRankedAndFresh | travel_ai/services/final_route_architect.py:383-406 | two fallbacks picked for different days are distinct indexed places, the earlier day's rated at least as high |
| Itinerary.DaysShape | travel_ai/services/final_route_architect.py:420-437 | day `d` is numbered `d + 1` with window "08:00-20:00", keeps its draft's flow, walking and meals, its blocks name the final places in order, and its cost is that of its blocks |
| Itinerary.DraftsShape | travel_ai/services/final_route_architect.py:408-418 | every draft has 4 meals and a non-negative walking estimate |
| Itinerary.PlannedBounded | travel_ai/services/final_route_architect.py:389-406 | no planned day exceeds 4 blocks |
| Itinerary.SanitizedShape | travel_ai/services/final_route_architect.py:370-452 | the plan has `num_days` days (none when it is not positive), numbered 1 upward, each with window "08:00-20:00", 4 meals, at most 4 blocks, non-negative walking and the cost of its blocks; the total is the sum of day costs, and `within_budget` holds exactly when the total is at most the budget |
| Itinerary.SanitizedDaysShape | travel_ai/services/final_route_architect.py:389-437 | the per-day facts of that statement |
| Itinerary.DayCostsFloor | travel_ai/services/final_route_architect.py:364-367 | with non-negative ticket prices every day costs at least 1400 |
| Itinerary.TotalCostFloor | travel_ai/services/final_route_architect.py:439 | the total is at least 1400 per day |
| Itinerary.SanitizedCostFloor | travel_ai/services/final_route_architect.py:437-439 | in the plan every day costs at least 1400, and the total at least 1400 per day |
| Itinerary.ValueAtIndexed | travel_ai/services/final_route_architect.py:77 | the name of every indexed place looks up that place |
| Itinerary.CandidatesIndexed | travel_ai/services/final_route_architect.py:383-402 | every fallback names an indexed place |
| Itinerary.CandidateIndexed | travel_ai/services/final_route_architect.py:395-402 | the fallback at any position names an indexed place |
| Itinerary.PlannedIndexed | travel_ai/services/final_route_architect.py:389-404 | every planned block names an indexed place |
| Itinerary.PlannedDayIndexed | travel_ai/services/final_route_architect.py:389-404 | the same for one block of one day |
| Itinerary.DaysKeep | travel_ai/services/final_route_architect.py:435-437 | timing a day keeps the places of its blocks |
| Itinerary.SanitizedBlocksIndexed | travel_ai/services/final_route_architect.py:370-452 | every block of the plan names an indexed place |
| Itinerary.SanitizedDaysIndexed | travel_ai/services/final_route_architect.py:389-437 | every block of every sanitised day names an indexed place |
| Itinerary.MandatoryBlocksIndexed | travel_ai/services/final_route_architect.py:330-343 | every mandatory block names an indexed place |
| Sorting.SortDesc | travel_ai/services/final_route_architect.py:384 | sorting keeps the length and the elements (a permutation) |
| Sorting.SortDescSorted | travel_ai/services/final_route_architect.py:384 | the result is in non-increasing key order |
| Sorting.SortDescStable | travel_ai/services/final_route_architect.py:384 | sorting is stable: elements with equal keys keep their relative order |
| Sorting.SortDescOfSorted | travel_ai/services/final_route_architect.py:384 | an already sorted list is left as it is |
| Sorting.InsertDescPermutation | travel_ai/services/final_route_architect.py:384 | inserting one element adds exactly that element |
| Sorting.StrLeTotal | travel_ai/services/itinerary_cache_service.py:13 | any two texts are ordered one way or the other |
| Sorting.StrLeTransitive | travel_ai/services/itinerary_cache_service.py:13 | text order is transitive |
| Sorting.StrLeAntisymmetric | travel_ai/services/itinerary_cache_service.py:13 | texts ordered both ways are equal |
| Sorting.SortStrings | travel_ai/services/itinerary_cache_service.py:13 | sorting texts is a permutation |
| Sorting.SortStringsSorted | travel_ai/services/itinerary_cache_service.py:13 | sorted texts are in ascending order |
| Sorting.SortedStrUnique | travel_ai/services/itinerary_cache_service.py:13 | two sorted permutations of the same texts are equal |
| Sorting.SortStringsPermutation | travel_ai/services/itinerary_cache_service.py:13 | sorting ignores the order of its input |
| Seqs.MapFilterMembers | travel_ai/services/final_route_architect.py:129 | a comprehension `[f(x) for x in s if keep(x)]` holds exactly the images of the elements kept |
| Seqs.FilterMapLoop | travel_ai/services/final_route_architect.py:209-221 | the loop that keeps the blocks whose place is indexed and normalises them computes the normalised kept blocks, in order |
| Seqs.PartitionLoop | travel_ai/services/final_route_architect.py:227-230 | the loop that groups blocks into morning and afternoon puts each block in exactly one group, keeping the order |
| Seqs.PartitionPermutation | travel_ai/services/final_route_architect.py:227-230 | the two groups together hold exactly the blocks given |
| Seqs.MapIndexedLoop | travel_ai/services/final_route_architect.py:289-300 | the loop over `enumerate(blocks)` maps each block with its position |
| Seqs.DistinctMapLoop | travel_ai/services/final_route_architect.py:312-316 | the loop that collects canonical mandatory names keeps each indexed name once, in first-occurrence order |
| Seqs.TotalNonNegative | travel_ai/services/final_route_architect.py:364-367 | a sum of non-negative prices is non-negative |
| Seqs.TotalBounds | travel_ai/services/final_route_architect.py:198-199 | a sum of values between two bounds lies between the bounds times the count |
| Tools.TierMatches | travel_ai/services/tools.py:94-96 | a tier's keyword occurs in the lowered name or category; see FirstTier |
| Tools.DigitRun | travel_ai/services/tools.py:32 | the digits matched are the longest run of digits at the start of the text |
| Tools.Numbers | travel_ai/services/tools.py:32 | the numbers `re.findall(r"\d+\.\d+\|\d+")` finds are all non-negative |
| Text.FractionValue | travel_ai/services/tools.py:36 | the digits after a decimal point, as `float()` reads them, add a value in [0, 1) |
| Tools.ParseCost | travel_ai/services/tools.py:29-37 | a parsed cost is never negative |
| Tools.NumbersEmptyIff | travel_ai/services/tools.py:32-34 | no number is found exactly when the text has no digit |
| Tools.DigitRunOfDigits | travel_ai/services/tools.py:32 | a digit run followed by a non-digit is matched whole |
| Tools.NumbersOfNat | travel_ai/services/tools.py:32 | the decimal text of a natural number is read as that number, then the numbers of the rest |
| Tools.StripNoSpace | travel_ai/services/tools.py:31 | `strip()` leaves blank-free text unchanged |
| Tools.CleanUnchanged | travel_ai/services/tools.py:31 | removing `,` and `₹` and stripping leave a text of digits and dashes unchanged |
| Tools.ParseCostOfNat | travel_ai/services/tools.py:29-37 | a plain whole price parses as itself |
| Tools.NumbersSkip | travel_ai/services/tools.py:32 | a leading non-digit does not change the numbers found |
| Tools.NumbersOfRange | travel_ai/services/tools.py:32 | the range text `a-b` holds exactly the numbers `a` and `b` |
| Tools.ParseCostOfPair | travel_ai/services/tools.py:35-36 | a text with a `-` and exactly two numbers parses as their mean |
| Tools.ParseCostOfRange | travel_ai/services/tools.py:29-37 | the range `a-b` parses as `(a + b) / 2` |
| Tools.RemoveCharAbsent | travel_ai/services/tools.py:31 | `replace` of an absent character changes nothing |
| Tools.ParseCostNoDigits | travel_ai/services/tools.py:33-34 | a text with no digit parses as 0.0 |
| Tools.EstimateTransportCosts | travel_ai/services/tools.py:57-74 | the round trip is 800 for Mumbai to Pune in any case and 3000 otherwise; local per day is 600; the grand total is round trip plus 600 per day, and the local total is the difference |
| Tools.TransportIgnoresCase | travel_ai/services/tools.py:61 | lowering the city names first gives the same estimate |
| Tools.TransportPerDay | travel_ai/services/tools.py:66-72 | one more day adds exactly 600 to the grand total |
| Tools.CostsOf | travel_ai/services/tools.py:79-82 | one parsed, non-negative cost per place |
| Tools.CalculateBudget | travel_ai/services/tools.py:77-86 | the total is non-negative and `within_budget` holds exactly when the total is at most the budget |
| Tools.BudgetMonotone | travel_ai/services/tools.py:79-85 | more places never lower the total, and never turn an over-budget trip within budget |
| Tools.FirstTier | travel_ai/services/tools.py:94-96 | the tier found is the first, in table order, with a keyword in the lowered name or category; none only when no tier matches |
| Tools.ClassifyPlaceType | travel_ai/services/tools.py:89-98 | the result is one of the four effort types |
| Tools.ClassifyIsFirstMatch | travel_ai/services/tools.py:94-96 | the first matching tier, in table order, is the result |
| Tools.ClassifyDefault | travel_ai/services/tools.py:98 | with no match the result is "urban_walkable" |
| Tools.MarketcityMentionsMarket | travel_ai/services/tools.py:14-16 | a text containing "marketcity" contains the "urban_walkable" keyword "market" |
| Tools.MarketcityIsUrbanWalkable | travel_ai/services/tools.py:12-17 | a "marketcity" name with no high-effort keyword is "urban_walkable", never "modern_outskirts" |
| Tools.ModernOutskirtsOnlyViaPhoenix | travel_ai/services/tools.py:12-17 | "modern_outskirts" is reached only through "phoenix" in the name or category |
| Tools.ValidPlaces | travel_ai/services/tools.py:114-117 | the valid places are exactly the input places with numeric coordinates |
| Tools.PointsOf | travel_ai/services/tools.py:144-147 | one coordinate pair per valid place |
| Tools.PushNeighbours | travel_ai/services/tools.py:142-149 | the inner loop pushes, after the old stack, exactly the unvisited places within reach of the current one |
| Tools.ReachFromDone | travel_ai/services/tools.py:129-149 | with a symmetric distance, a place within reach of a finished cluster's member was already visited |
| Tools.FrontierPopVisited | travel_ai/services/tools.py:130-132 | popping an already visited place keeps every neighbour of the cluster in it or on the stack |
| Tools.FrontierVisit | travel_ai/services/tools.py:134-149 | visiting a place and pushing its unvisited neighbours keeps that frontier invariant |
| Tools.CountVisit | travel_ai/services/tools.py:134-139 | adding a newly visited place keeps each visited place counted exactly once |
| Tools.LinkedByLinked | travel_ai/services/tools.py:137-149 | a cluster in which each later member has a named earlier member within reach is linked |
| Tools.AttachedPop | travel_ai/services/tools.py:130-132 | popping the stack keeps every remaining entry pushed by a member of the cluster |
| Tools.LinkVisit | travel_ai/services/tools.py:134-149 | appending a place pushed by a cluster member keeps the cluster linked, and the neighbours it pushes are attached to it |
| Tools.Explore | travel_ai/services/tools.py:126-149 | the stack loop grows a cluster holding the start place, closed under reach and linked (each member after the first is within reach of an earlier one), disjoint from earlier clusters, with each visited place counted once |
| Tools.Step | travel_ai/services/tools.py:129-149 | one pass of the stack loop keeps the search state (counts, frontier, links) and makes progress: a new place visited, or the stack shorter |
| Tools.Visit | travel_ai/services/tools.py:134-149 | visiting an unvisited place adds it to the visited set and the cluster, and keeps the counts, the frontier and the links |
| Tools.VisitKeeps | travel_ai/services/tools.py:130-149 | one loop iteration keeps the frontier invariant |
| Tools.AddCluster | travel_ai/services/tools.py:151-152 | appending a non-empty, closed and linked cluster keeps every cluster so |
| Tools.SearchFrom | travel_ai/services/tools.py:121-152 | the search from an unvisited place records one more non-empty, closed and linked cluster and marks the place visited |
| Tools.ConnectedGroups | travel_ai/services/tools.py:119-152 | the outer loop partitions the valid places into non-empty clusters, each closed under reach and linked, so each is one connected component of the reach graph |
| Tools.Materialize | travel_ai/services/tools.py:135-139 | each clustered place is the valid place at its index with `effort_type` set by `classify_place_type` |
| Tools.SortedGroups | travel_ai/services/tools.py:155 | sorting by size keeps the partition, closure and links and orders clusters by non-increasing size |
| Tools.ClusterPlacesByProximity | travel_ai/services/tools.py:101-157 | every valid place is in exactly one cluster and invalid ones in none; clusters are non-empty, closed under reach, linked by hops within `max_distance_km`, tagged with their effort type and in non-increasing size |
| Tools.NearPlacesShareCluster | travel_ai/services/tools.py:129-149 | two valid places within `max_distance_km` end up in the same cluster |
| Agents.CleanJsonSpan | travel_ai/services/agents.py:13-24 | `_clean_json`: the text from the first `{` to the last `}`, or an error; see CleanJsonSpanFixed, CleanJsonSpanIdempotent |
| Agents.RankEntry | travel_ai/services/agents.py:55-71 | the score entry of one discovered place; see RankEntriesMembers, MissingRatingDefaults |
| Agents.Ranking | travel_ai/services/agents.py:53-73 | `rank_places_for_visit`: the scored places, best first; see RankPlacesForVisit, RankingSorted |
| Agents.NormalizePlace | travel_ai/services/agents.py:90-104 | the cleaned record of one discovered place; see CanonOfStable, MergeOrigin |
| Agents.Merge | travel_ai/services/agents.py:78-107 | `_normalize_discovered_places`: one record per canonical name, first occurrence kept; see MergeDistinct, MergeOrigin, MergeKeepsFirst, MergePrefix |
| Agents.IndexOf | travel_ai/services/agents.py:15 | the position found holds the first occurrence of the character; none is found only when it does not occur |
| Agents.LastIndexOf | travel_ai/services/agents.py:15 | the position found holds the last occurrence of the character; none is found only when it does not occur |
| Agents.BraceSpan | travel_ai/services/agents.py:15-17 | the greedy match `\{.*\}` exists exactly when some `{` is followed by a `}`; it is the slice from the first `{` to the last `}` |
| Agents.ExtractSpan | travel_ai/services/agents.py:15-17 | an error exactly when no `{` is followed by a `}`; otherwise the span from the first `{` to the last `}` |
| Agents.ReplaceAbsent | travel_ai/services/agents.py:14 | removing a fence marker from text without backticks changes nothing |
| Agents.StripFencesNoop | travel_ai/services/agents.py:14 | stripping and fence removal leave a backtick-free `{...}` text unchanged |
| Agents.HeadInPrefix | travel_ai/services/agents.py:15 | the first character lies in every non-empty prefix |
| Agents.LastInSuffix | travel_ai/services/agents.py:15 | the last character lies in every non-empty suffix |
| Agents.BraceSpanWhole | travel_ai/services/agents.py:15 | a text that starts with `{` and ends with `}` is its own span |
| Agents.CleanJsonSpanFixed | travel_ai/services/agents.py:13-17 | a backtick-free `{...}` text is its own cleaned span |
| Agents.CleanJsonSpanIdempotent | travel_ai/services/agents.py:13-17 | cleaning a backtick-free span again gives the same span |
| Agents.ExtractSpanIdempotent | travel_ai/services/agents.py:15-17 | an extracted backtick-free span is a fixed point of the whole cleaning |
| Agents.InterestTokens | travel_ai/services/agents.py:50 | at most one token per interest, each non-blank and lower-case |
| Agents.Hits | travel_ai/services/agents.py:61 | the number of tokens found never exceeds the number of tokens |
| Agents.RankEntriesMembers | travel_ai/services/agents.py:53-71 | there is an entry for every place with a non-blank name and every entry comes from such a place |
| Agents.RankPlacesForVisit | travel_ai/services/agents.py:41-75 | `ranked` is the stable largest-first sort by (score, rating) of the scored named places; `mandatory` is its prefix of length `min(top_n, len)`, empty when `top_n <= 0` |
| Agents.ScoreNamedPlaces | travel_ai/services/agents.py:53-71 | the loop builds one entry per named place, in input order, scored as `rating * 20 + 8 * hits` |
| Agents.RankingSorted | travel_ai/services/agents.py:73 | the ranking is a permutation of the entries, sorted non-increasing by (score, rating), ties kept in input order |
| Agents.MissingRatingDefaults | travel_ai/services/agents.py:58-62 | a missing rating counts as 4.0, so the score lies between 80 and 80 plus 8 per token |
| Agents.HitsMonotone | travel_ai/services/agents.py:61 | more tokens never lower the hit count |
| Agents.CanonOfStable | travel_ai/services/agents.py:86-88 | the canonical name of a merged entry is the one its raw entry had |
| Agents.MergeRunAppend | travel_ai/services/agents.py:84-105 | the merge state after one more place is one merge step from the state before |
| Agents.MergeRunSeenComplete | travel_ai/services/agents.py:88-105 | every merged entry's canonical name is in `seen_names` |
| Agents.MergeRunSeenOnly | travel_ai/services/agents.py:88-105 | `seen_names` holds only names of merged entries |
| Agents.NormalizeDiscoveredPlaces | travel_ai/services/agents.py:78-107 | the two nested loops compute the first-wins merge of the seed places followed by the additional ones |
| Agents.MergeSources | travel_ai/services/agents.py:84-105 | the outer loop over sources computes the merge of their concatenation |
| Agents.MergeSource | travel_ai/services/agents.py:85-105 | the inner loop advances `merged_places` and `seen_names` as the merge of the places seen so far |
| Agents.MergeDistinct | travel_ai/services/agents.py:86-105 | every merged entry is valid, and canonical names are pairwise distinct |
| Agents.KeysDistinctSnoc | travel_ai/services/agents.py:88-105 | appending an entry with a new name keeps names distinct |
| Agents.MergePrefix | travel_ai/services/agents.py:84-105 | the merge of a prefix is a prefix of the merge, so every seed-sourced entry precedes every augmented one |
| Agents.UnlocatedEntryIgnored | travel_ai/services/agents.py:88 | an entry without numeric coordinates is dropped and leaves no trace, so it never blocks a later entry with its name |
| Agents.MergeOrigin | travel_ai/services/agents.py:86-104 | every merged entry is the normalised form of a valid input entry |
| Agents.MergeLastStep | travel_ai/services/agents.py:85-105 | an entry of the merge comes from the earlier places or is the last place normalised |
| Agents.LastKept | travel_ai/services/agents.py:88-105 | a valid place whose name no earlier valid place had is appended |
| Agents.MergeKeepsFirst | travel_ai/services/agents.py:86-105 | the first valid occurrence of each canonical name is kept |
| CacheService.NormalizeInterests | travel_ai/services/itinerary_cache_service.py:13 | the sorted set of cleaned interests; see InterestsShape, InterestsIgnoreOrder, InterestsIgnoreCase, InterestsIdempotent |
| CacheService.NormalizeRequest | travel_ai/services/itinerary_cache_service.py:11-20 | `_normalize_request`; see NormalizeIdempotent |
| CacheService.CacheKey | travel_ai/services/itinerary_cache_service.py:23-26 | `_cache_key`: the digest of the normalised request; see CacheKeyIgnoresPresentation |
| CacheService.CleanShape | travel_ai/services/itinerary_cache_service.py:13-16 | `strip().lower()` gives stripped lower-case text, blank exactly when the input is blank, and is idempotent |
| CacheService.CleanIgnoresCaseAndSpace | travel_ai/services/itinerary_cache_service.py:13-16 | lowering or stripping first does not change the cleaned text |
| CacheService.CleanedShape | travel_ai/services/itinerary_cache_service.py:13 | every kept interest is cleaned |
| CacheService.InterestsShape | travel_ai/services/itinerary_cache_service.py:12-13 | the normalised interests are sorted, cleaned, and exactly as many as the non-blank inputs (duplicates kept) |
| CacheService.InterestsIgnoreOrder | travel_ai/services/itinerary_cache_service.py:13 | any permutation of the interests normalises the same |
| CacheService.InterestsIgnoreCase | travel_ai/services/itinerary_cache_service.py:13 | lowering every interest first normalises the same |
| CacheService.InterestsIdempotent | travel_ai/services/itinerary_cache_service.py:13 | normalising normalised interests changes nothing |
| CacheService.NormalizeIdempotent | travel_ai/services/itinerary_cache_service.py:11-20 | `_normalize_request` is idempotent |
| CacheService.CacheKeyIgnoresPresentation | travel_ai/services/itinerary_cache_service.py:11-26 | requests differing only in city case and surrounding blanks and in interest order and case get equal cache keys, whatever the serialisation and digest |
| Culinary.Firsts | travel_ai/services/culinary_agent.py:25-33 | the first item of each non-blank key, in input order; see FirstsAreFirstIndices, FirstsKeys, FirstsDistinct, KeepFirsts |
| Culinary.SanitizedOutlets | travel_ai/services/culinary_agent.py:23-44 | `_sanitize_culinary_payload`; see SanitizeCulinaryPayload, SanitizedOutletsDistinct |
| Culinary.FirstIndices | travel_ai/services/culinary_agent.py:27-33 | the positions kept are increasing positions of items whose key is non-blank and not seen earlier |
| Culinary.FirstsAreFirstIndices | travel_ai/services/culinary_agent.py:27-33 | the kept outlets are exactly the items at those positions, in input order |
| Culinary.FirstIndicesComplete | travel_ai/services/culinary_agent.py:27-33 | every first occurrence of a non-blank key is kept |
| Culinary.FirstsKeys | travel_ai/services/culinary_agent.py:29-33 | the kept outlets cover every non-blank key of the input |
| Culinary.KeySetAppend | travel_ai/services/culinary_agent.py:33 | one more item adds its key to the seen set when it is non-blank |
| Culinary.FirstsDistinct | travel_ai/services/culinary_agent.py:29-33 | kept outlets have non-blank, pairwise-distinct `strip().lower()` names |
| Culinary.FirstsAppend | travel_ai/services/culinary_agent.py:27-33 | one more item is appended exactly when its key is non-blank and unseen |
| Culinary.Convert | travel_ai/services/culinary_agent.py:27-28 | normalising every outlet succeeds exactly when each one does, with one result per outlet |
| Culinary.ConvertStep | travel_ai/services/culinary_agent.py:27-28 | normalising one more outlet extends the results by it |
| Culinary.KeepFirsts | travel_ai/services/culinary_agent.py:24-33 | the loop with its `seen` set keeps the first outlet of each non-blank name, failing when any outlet fails to normalise |
| Culinary.NormalizeFoodOutlet | travel_ai/services/culinary_agent.py:12-20 | name, area and cuisine are stripped texts; non-list dishes and slots become []; a missing or zero legacy score is 0, a numeric one is kept as its value; a non-dict or unreadable score raises |
| Culinary.SanitizeCulinaryPayload | travel_ai/services/culinary_agent.py:23-44 | the payload carries the city, the six lists as given and the deduplicated outlets; it fails exactly when an outlet does |
| Culinary.EmptyPayload | travel_ai/services/culinary_agent.py:55-64 | the fallback carries the city and every list empty |
| Culinary.CulinaryAgent | travel_ai/services/culinary_agent.py:47-64 | the city is always kept; a failed parse or sanitisation gives the empty fallback, anything else the sanitised payload |
| Culinary.SanitizedOutletsDistinct | travel_ai/services/culinary_agent.py:26-33 | the outlets kept have distinct non-blank names, are the first occurrences in input order, and cover every non-blank name |
| PlaceDetail.CanonicalKey | travel_ai/services/place_detail_service.py:46-49 | `_canonical_key`: city and place keys joined; see CanonicalKeyShape |
| PlaceDetail.Squash | travel_ai/services/place_detail_service.py:48 | replacing every run of characters outside `[a-z0-9]` by one `_` leaves only key characters and single underscores, and keeps a leading key character |
| PlaceDetail.SquashKeyShaped | travel_ai/services/place_detail_service.py:48 | the substitution leaves a text that already has that shape unchanged |
| PlaceDetail.KeyShapedSlice | travel_ai/services/place_detail_service.py:49 | a slice of a key-shaped text is key-shaped |
| PlaceDetail.TrimKeyShaped | travel_ai/services/place_detail_service.py:49 | `strip("_")` keeps the shape |
| PlaceDetail.KeyOf | travel_ai/services/place_detail_service.py:48-49 | the key is key-shaped and neither starts nor ends with `_` |
| PlaceDetail.CanonicalKeyShape | travel_ai/services/place_detail_service.py:46-49 | `_canonical_key` holds only `[a-z0-9_]`, has no `_` at either end and never holds `__` |
| PlaceDetail.KeyShapedNoDoubleUnderscore | travel_ai/services/place_detail_service.py:48 | a key-shaped text has no two adjacent underscores |
| PlaceDetail.KeyShapedStripped | travel_ai/services/place_detail_service.py:47 | `strip()` leaves a key-shaped text unchanged |
| PlaceDetail.KeyShapedLowered | travel_ai/services/place_detail_service.py:47 | `lower()` leaves a key-shaped text unchanged |
| PlaceDetail.KeyOfKey | travel_ai/services/place_detail_service.py:46-49 | canonicalising a key again gives the same key |
| PlaceDetail.AnyInRange | travel_ai/services/place_detail_service.py:81 | true exactly when some character's code point lies in the inclusive range |
| PlaceDetail.ContainsNativeScript | travel_ai/services/place_detail_service.py:65-81 | true for codes outside the table, and otherwise exactly when some character lies in that code's range |
| PlaceDetail.LatinIsNotNative | travel_ai/services/place_detail_service.py:65-81 | text below U+0900 contains no native script for any code in the table |
| PlaceDetail.NativeScriptMonotone | travel_ai/services/place_detail_service.py:81 | adding text on either side keeps native script found |
| PlaceDetail.ToStrList | travel_ai/services/place_detail_service.py:124-129 | a non-blank string gives its stripped self alone, a blank string or a non-list gives [] |
| PlaceDetail.ToStrListAppend | travel_ai/services/place_detail_service.py:125-126 | one more list item adds its stripped text at the end exactly when it is not blank, so the list is read in order |
| PlaceDetail.ToStrListShape | travel_ai/services/place_detail_service.py:125-126 | every entry is stripped and non-empty; a list gives the stripped text of each non-blank item, in order, one entry per such item |
| PlaceDetail.SiteKindOf | travel_ai/services/place_detail_service.py:133-146 | a place is religious exactly when a religious word occurs in its lowered name, rugged exactly when none does and a fort or hill word does |
| PlaceDetail.DefaultConstraints | travel_ai/services/place_detail_service.py:132-146 | never empty; a single generic entry exactly when the place is neither religious nor rugged |
| PlaceDetail.DefaultSpecialCautions | travel_ai/services/place_detail_service.py:149-163 | never empty; a single generic entry exactly when the place is neither religious nor rugged |
| PlaceDetail.ReligiousFirst | travel_ai/services/place_detail_service.py:134-156 | religious words take priority over fort and hill words in both defaults |
| PlaceDetail.SiteKindIgnoresCase | travel_ai/services/place_detail_service.py:133-150 | the defaults ignore the case of the place name |
| PlaceDetail.ConstraintsOrDefault | travel_ai/services/place_detail_service.py:207-227 | the constraints shown are never empty, and are the model's list whenever it has an entry |
| PlaceDetail.CautionsOrDefault | travel_ai/services/place_detail_service.py:208-228 | the cautions shown are never empty, and are the model's list whenever it has an entry |
| PlaceDetail.BuildAudioArtifacts | travel_ai/services/place_detail_service.py:109-121 | the English entry has lang code "en", file `<cache dir>/<cache_key>_en.mp3` and URL `/cache/place.detail.output/<cache_key>_en.mp3`; the Hindi entry the same with "hi" and `_hi.mp3`; so the two files and URLs differ |
| PlaceDetail.CancelAffixes | travel_ai/services/place_detail_service.py:112-118 | equal names built around two keys with one prefix and suffix have equal keys |
| PlaceDetail.AudioForInjective | travel_ai/services/place_detail_service.py:112-118 | different cache keys give different audio files and URLs for one language |
| PlaceDetail.AudioArtifactsInjective | travel_ai/services/place_detail_service.py:109-121 | different cache keys never share an English or Hindi file or URL |
| Api.ToArray | travel-ai-frontend/services/api.ts:17-19 | `toArray`: an array's elements, anything else gives []; used by SortedTimelineOrdered and ResponseDays |
| Api.ParseEndTime | travel-ai-frontend/services/api.ts:41-47 | `parseEndTime`: the minutes of the clock after the first `-`; see EndWithoutDash, RangeRoundTrip, RangeEndReadsBack, EndOfClock |
| Api.NormalizePlace | travel-ai-frontend/services/api.ts:68-81 | the normalised place of one schedule block; see PlaceTimes, PlaceKeepsRaw, PlaceName |
| Api.NormalizeMeal | travel-ai-frontend/services/api.ts:83-93 | the normalised meal of one food halt; see MealTimes, MealKeepsRaw, MealLabels |
| Api.Timeline | travel-ai-frontend/services/api.ts:94-98 | the day's places then meals, stably sorted by start; see TimelineIsPermutation, TimelineSorted, TimelineStable |
| Api.WalkingDistance | travel-ai-frontend/services/api.ts:110-111 | the walking distance text of a day; see WalkingDefault |
| Api.NormalizeDay | travel-ai-frontend/services/api.ts:65-114 | the normalised day at a position; see DayNumber, DayCost, DayTitle, DayTimeline, WalkingDefault |
| Api.NormalizeResponse | travel-ai-frontend/services/api.ts:49-145 | `normalizeResponse`: the itinerary with each raw day normalised; see ResponseDays, ResponseTotals |
| Api.Get | travel-ai-frontend/services/api.ts:66-67 | a property read on anything but an object is `undefined` |
| Api.Coalesce | travel-ai-frontend/services/api.ts:59-62 | `a ?? b` is `a` unless `a` is `undefined` or `null`, and otherwise `b` |
| Api.ToStringValue | travel-ai-frontend/services/api.ts:21-23 | a string is kept, anything else gives the fallback |
| Api.ToNumberValue | travel-ai-frontend/services/api.ts:25-27 | a finite number is kept, anything else (NaN and the infinities included) gives the fallback |
| Api.ToBooleanValue | travel-ai-frontend/services/api.ts:29-31 | a boolean is kept, anything else gives the fallback |
| Api.UnsignedDecimal | travel-ai-frontend/services/api.ts:36 | a run of digits reads as its decimal value, and every number read is non-negative |
| Api.JsNumber | travel-ai-frontend/services/api.ts:36 | `Number(s)` of a string whose trimmed text is all digits is that decimal value |
| Api.JsNumberOfNat | travel-ai-frontend/services/api.ts:36 | `Number` reads back the decimal text of any natural number |
| Api.JsNumberOfDigits | travel-ai-frontend/services/api.ts:36 | `Number` of a digit string, leading zeros included, is its decimal value |
| Api.SecondPieceIsSplit | travel-ai-frontend/services/api.ts:42 | `split(sep)[1]` exists exactly when the separator occurs, and is then the second piece of the split |
| Api.MinutesOr | travel-ai-frontend/services/api.ts:35 | a blank clock reads as `Number.MAX_SAFE_INTEGER` |
| Api.ParseStartTime | travel-ai-frontend/services/api.ts:33-35 | `parseStartTime` gives `Number.MAX_SAFE_INTEGER` when the text before the first `-` is blank |
| Api.StartWithoutColon | travel-ai-frontend/services/api.ts:36-37 | a start without `:` has no finite minutes part, so it reads as `Number.MAX_SAFE_INTEGER` |
| Api.EndWithoutDash | travel-ai-frontend/services/api.ts:41-43 | `parseEndTime` of a text without `-` is `Number.MAX_SAFE_INTEGER` |
| Api.ClockPieces | travel-ai-frontend/services/api.ts:36 | `"H:M".split(":")` is `[H, M]` when neither part holds a `:` |
| Api.ClockMinutesOf | travel-ai-frontend/services/api.ts:36-38 | a clock's minutes are computed from `Number` of its first two pieces |
| Api.ClockOfPieces | travel-ai-frontend/services/api.ts:36-38 | a clock whose two pieces are finite numbers `h` and `m` reads as `h * 60 + m` |
| Api.ClockOfDigits | travel-ai-frontend/services/api.ts:33-38 | `H:M` with digit pieces reads as `H * 60 + M` |
| Api.StartOfDigits | travel-ai-frontend/services/api.ts:33-38 | `parseStartTime` of `HH:MM` or `HH:MM-...` with digit pieces is `HH * 60 + MM` |
| Api.ClockReadsBack | travel-ai-frontend/services/api.ts:33-38 | the clock text the planner writes for `m` minutes reads back as `m` |
| Api.RangeEndPiece | travel-ai-frontend/services/api.ts:42 | the piece after the `-` of a planner range is its end clock |
| Api.RangeRoundTrip | travel-ai-frontend/services/api.ts:33-47 | both parsers invert the planner's `HH:MM-HH:MM` slot: start `a` and end `e` read back as `a` and `e` |
| Api.RangeStartReadsBack | travel-ai-frontend/services/api.ts:33-39 | the start of a planner range reads back as its start minutes |
| Api.RangeEndReadsBack | travel-ai-frontend/services/api.ts:41-47 | the end of a planner range reads back as its end minutes |
| Api.EndOfClock | travel-ai-frontend/services/api.ts:41-47 | a text whose second `-` piece is a planner clock ends at that clock's minutes |
| Api.SpreadProp | travel-ai-frontend/services/api.ts:68-72 | in `{...base, ...over}` a key of `over` wins, and any other key keeps its value from `base` |
| Api.TimeFieldsShow | travel-ai-frontend/services/api.ts:68-87 | the normalised item's time, start and end minutes are the ones computed from its time text |
| Api.PlaceTimes | travel-ai-frontend/services/api.ts:68-72 | a normalised place carries its time text and the start and end parsed from it |
| Api.MealTimes | travel-ai-frontend/services/api.ts:83-87 | a normalised meal carries its time text and the start and end parsed from it |
| Api.PlaceKeepsRaw | travel-ai-frontend/services/api.ts:68-69 | every key the place normalisation does not set keeps the raw block's value |
| Api.MealKeepsRaw | travel-ai-frontend/services/api.ts:83-84 | every key the meal normalisation does not set keeps the raw halt's value |
| Api.PlaceName | travel-ai-frontend/services/api.ts:73-76 | the place name is `place_name` if it is a string, else `place` when `place_name` is missing and `place` is a string, else "Planned stop" |
| Api.MealLabels | travel-ai-frontend/services/api.ts:88-90 | meal type, outlet and signature dish are always strings, the raw string when there is one |
| Api.ItemStarts | travel-ai-frontend/services/api.ts:71-97 | the sort reads each normalised item's start as parsed from its time text |
| Api.TimelineIsPermutation | travel-ai-frontend/services/api.ts:94 | the timeline holds every normalised place and meal exactly once: its length is blocks plus halts |
| Api.TimelineSorted | travel-ai-frontend/services/api.ts:94-98 | the timeline is in ascending order of start minutes |
| Api.TimelineStable | travel-ai-frontend/services/api.ts:94-98 | the sort is stable: among items with one start, places come before meals, each in input order |
| Api.MiddleProp | travel-ai-frontend/services/api.ts:101-114 | a key set by the normalisation and not overridden later is the normalised value |
| Api.DayNumber | travel-ai-frontend/services/api.ts:103 | the day number is the raw finite number, else the position plus one |
| Api.DayCost | travel-ai-frontend/services/api.ts:113 | the day cost is the raw finite number, else 0 |
| Api.DayTitle | travel-ai-frontend/services/api.ts:104 | the title is the raw string, else "Day N" for position N - 1 |
| Api.DayTimeline | travel-ai-frontend/services/api.ts:66-112 | the day's timeline is the sorted merge of its normalised blocks and halts |
| Api.WalkingDefault | travel-ai-frontend/services/api.ts:99-111 | walking distance is "N/A" exactly when the estimate is not a finite positive number |
| Api.ResponseDays | travel-ai-frontend/services/api.ts:54-65 | the itinerary is an object whose days are the raw days (first of `days`, `day_plans`, `plan`, `schedule`) each normalised with its position |
| Api.ResponseTotals | travel-ai-frontend/services/api.ts:140-141 | total cost defaults to 0 and `within_budget` is true only when the raw flag is the boolean true |
| Api.WithAbsoluteAudioUrl | travel-ai-frontend/services/api.ts:167-175 | "" stays "", absolute `http://` and `https://` URLs are unchanged, and any other URL is the base followed by the URL |
| Api.AbsoluteUrlIdempotent | travel-ai-frontend/services/api.ts:167-175 | with an absolute base, making a URL absolute twice is making it absolute once |
| Api.ToStringArray | travel-ai-frontend/services/api.ts:177-185 | a non-blank string gives its trimmed self alone; anything that is neither an array nor a non-blank string gives [] |
| Api.ToStringArrayShape | travel-ai-frontend/services/api.ts:178-180 | every entry is non-empty and trimmed; an array gives the trimmed `String` of each item, blanks dropped, in order |
| DayCard.IsMealItem | travel-ai-frontend/components/DayCard.tsx:12-18 | `isMealItem`: an item with a string `meal_type`, `signature_dish` or `outlet`; see NormalizedMealIsMeal, NormalizedPlaceIsMealIff |
| DayCard.StartHourAsWritten | travel-ai-frontend/components/DayCard.tsx:20-36 | `getStartHour` as written, a possibly fractional hour; see StartHourIsFloorOfWritten, NoHourIsMidnight, FractionalStartHour |
| DayCard.SortedTimeline | travel-ai-frontend/components/DayCard.tsx:39-44 | the card's stable sort of the timeline by start minutes; see SortedTimelineOrdered, SortedTimelineStable, CardKeepsNormalizedOrder |
| DayCard.NormalizedMealIsMeal | travel-ai-frontend/components/DayCard.tsx:12-18 | every normalised food halt is shown as a meal |
| DayCard.NormalizedPlaceIsMealIff | travel-ai-frontend/components/DayCard.tsx:12-18 | a normalised place is shown as a meal exactly when its raw block had a meal type, signature dish or outlet that is a string |
| DayCard.ClampHour | travel-ai-frontend/components/DayCard.tsx:22-35 | `Math.max(0, Math.min(23, h))` lies in [0, 23], is `h` inside that range and the nearer bound outside it |
| DayCard.ClampWholeHour | travel-ai-frontend/components/DayCard.tsx:22-35 | the same clamp on whole hours lies in [0, 23] and keeps hours already inside |
| DayCard.HourPieceOfRange | travel-ai-frontend/components/DayCard.tsx:25-30 | for a time `c-rest` whose start has no blank ends, the hour text is the piece of `c` before its first `:` |
| DayCard.TimeOnlyHourText | travel-ai-frontend/components/DayCard.tsx:21-25 | an item holding only a time text has no numeric start and its hour text comes from that time |
| DayCard.StartHour | travel-ai-frontend/components/DayCard.tsx:20-36 | the corrected start hour is a whole number in [0, 23] |
| DayCard.ClampFloor | travel-ai-frontend/components/DayCard.tsx:22-35 | clamping to [0, 23] and flooring commute |
| DayCard.StartHourIsFloorOfWritten | travel-ai-frontend/components/DayCard.tsx:20-36 | the hour as written lies in [0, 23]; the corrected hour is its floor, and equals it whenever `start_minutes` is a finite number |
| DayCard.NoHourIsMidnight | travel-ai-frontend/components/DayCard.tsx:25-33 | without a finite `start_minutes`, a missing or blank time or a non-numeric hour gives hour 0 |
| DayCard.WholeMinutesHour | travel-ai-frontend/components/DayCard.tsx:22 | `floor(m / 60)` of whole minutes is their whole hour |
| DayCard.MinutesHour | travel-ai-frontend/components/DayCard.tsx:21-22 | a finite whole `start_minutes` of `m` puts the item in hour `m / 60`, clamped to [0, 23] |
| DayCard.TextWholeHour | travel-ai-frontend/components/DayCard.tsx:25-35 | without `start_minutes`, a whole hour `h` read from the time text puts the item in hour `h`, clamped |
| DayCard.ClockHourPiece | travel-ai-frontend/components/DayCard.tsx:30 | the hour piece of a planner clock is its zero-padded hour |
| DayCard.RangeHourPiece | travel-ai-frontend/components/DayCard.tsx:25-30 | the hour text of a planner range `HH:MM-HH:MM` is its zero-padded start hour |
| DayCard.RangeHourText | travel-ai-frontend/components/DayCard.tsx:25-31 | `Number` reads that hour text as the start hour |
| DayCard.PlannerRangeHour | travel-ai-frontend/components/DayCard.tsx:21-22 | a normalised item whose time is a planner range starting at `a` minutes is in hour `a / 60`, clamped |
| DayCard.PlannerRangeTextHour | travel-ai-frontend/components/DayCard.tsx:25-35 | an item carrying only that range text is in the same hour, so both paths agree on planner times |
| DayCard.UnparsedTimeIsLateHour | travel-ai-frontend/components/DayCard.tsx:21-22 | a normalised item whose time does not parse carries `Number.MAX_SAFE_INTEGER` minutes and lands in hour 23 |
| DayCard.FractionalHourText | travel-ai-frontend/components/DayCard.tsx:25-30 | the time "9.5:00-10:00" has the hour text "9.5" |
| DayCard.NinePointFive | travel-ai-frontend/components/DayCard.tsx:30 | `Number("9.5")` is 9.5 |
| DayCard.FractionalStartHour | travel-ai-frontend/components/DayCard.tsx:30-35 | for that time and no `start_minutes`, the hour as written is 9.5 while the corrected hour is 9 |
| DayCard.SortedTimelineOrdered | travel-ai-frontend/components/DayCard.tsx:39-44 | the card shows a permutation of the day's timeline (empty when it is not an array), ascending by start, items without a numeric start after all others |
| DayCard.SortedTimelineStable | travel-ai-frontend/components/DayCard.tsx:40-44 | items with equal starts keep their relative order |
| DayCard.CardKeyOfRecord | travel-ai-frontend/components/DayCard.tsx:41-42 | the card reads a normalised item's start as the normaliser's sort did |
| DayCard.CardKeepsNormalizedOrder | travel-ai-frontend/components/DayCard.tsx:39-44 | re-sorting a normalised day's timeline leaves it exactly as the normaliser built it |
| PlaceIcon.GetPlaceKind | travel-ai-frontend/components/PlaceIcon.tsx:19-44 | `getPlaceKind`: the kind of the first rule whose pattern matches the lowered name, else landmark; see FirstMatchWins, LandmarkIffNoMatch, KindIsFirstMatch, KindIgnoresCase |
| PlaceIcon.FirstRule | travel-ai-frontend/components/PlaceIcon.tsx:22-42 | the rule found is the first one, in table order, whose pattern matches the lower-cased name; none is found only when no rule matches |
| PlaceIcon.FirstMatchWins | travel-ai-frontend/components/PlaceIcon.tsx:19-44 | when rule `i` matches and no earlier rule does, the kind is rule `i`'s kind |
| PlaceIcon.LandmarkIffNoMatch | travel-ai-frontend/components/PlaceIcon.tsx:19-44 | the kind is "landmark" exactly when no rule matches |
| PlaceIcon.KindIsFirstMatch | travel-ai-frontend/components/PlaceIcon.tsx:19-42 | any other kind comes from a matching rule with no earlier match |
| PlaceIcon.KindIgnoresCase | travel-ai-frontend/components/PlaceIcon.tsx:20 | names equal up to case get the same kind |
| PlaceIcon.SameMatchesSameRule | travel-ai-frontend/components/PlaceIcon.tsx:22-42 | names matched by the same rules find the same first rule |
| PlaceIcon.ContainsWord | travel-ai-frontend/components/PlaceIcon.tsx:22-42 | a rule matches when any of its alternatives occurs in the lower-cased name |
| PlaceIcon.TempleBeforeFort | travel-ai-frontend/components/PlaceIcon.tsx:22-27 | a name containing both "temple" and "fort" is a temple |
| PlaceIcon.HillIsGarden | travel-ai-frontend/components/PlaceIcon.tsx:31-33 | "hill" classifies as a garden when no earlier rule matches |
| PlaceIcon.CityIsMarket | travel-ai-frontend/components/PlaceIcon.tsx:34-36 | "city" (as in "Marketcity") classifies as a market when no earlier rule matches |
| PlaceIcon.ZooIsNature | travel-ai-frontend/components/PlaceIcon.tsx:40-42 | "zoo" classifies as nature when no earlier rule matches |
| Evaluator.Sum | travel_ai/services/evaluator.py:8 | the total activity count; see SumPositiveIff, EvaluatePlan |
| Evaluator.SumPositiveIff | travel_ai/services/evaluator.py:8-13 | the total of activity counts is positive exactly when some day has an activity |
| Evaluator.EvaluatePlan | travel_ai/services/evaluator.py:4-22 | `days_generated` is the number of days; the average times the number of days is the activity total, and is 0 with no days; `within_budget` is true only when the flag is present and true |
| Evaluator.ValidationSound | travel_ai/services/evaluator.py:11-15 | a passed validation implies at least one day, at least one activity and a present, true budget flag |
| Evaluator.ValidationComplete | travel_ai/services/evaluator.py:8-15 | with days present, validation passes exactly when some day has an activity and the budget flag is present and true |

## Left out

- `_haversine` (in `final_route_architect.py` and in `tools.py`): great-circle trigonometry on floats. The distance is a parameter `dist`, and the clustering asks only that it be symmetric.
- `round(..., 2)`: omitted everywhere. Prices, ratings, scores, walking estimates and costs are unbounded reals, not floats.
- Agents.RankPlacesForVisit: the score and rating are not rounded to two decimals before sorting. Two places whose scores differ only below 0.01 are ordered by their exact values rather than tied.
- Itinerary.SanitizeItinerary: `within_budget` compares the unrounded total with the budget, while the source compares the total rounded to two decimals.
- Evaluator.EvaluatePlan: the average of activities per day is not rounded.
- Evaluator.EvaluatePlan: `within_budget` is read as a boolean. The truthiness of a non-boolean value in its place is not modelled.
- Floating point in general: `float(...)` conversions are modelled by an `Option<real>` read (`_safe_float` with its default). Overflow, NaN and infinities of Python floats are not modelled.
- JSON decoding (`json.loads`, `response.json()`): the model starts from decoded values. The Python side starts from typed records whose fields are `Option`s. The front end starts from a `Js` value.
- Records of the wrong shape are not modelled. This covers a block or halt that is not a dict, and a `food_outlets` that is not a list.
- `str(...)` and `float(...)` of arbitrary values are taken as already applied. A record's text fields hold the string and its numeric fields the number, or `None` when `float()` would raise. Python's rendering of non-string values is not modelled.
- Lowering (`str.lower`, `toLowerCase`) and `str.title` are ASCII-only. Unicode case mapping is not modelled.
- `Number(s)`: modelled for blank text and for signed decimals with at most one point. Exponents, hexadecimal, `Infinity` text and digit separators are not modelled; for such a text the model gives "not a finite number".
- StrpHourMinute (`TimeSlots.StrpHourMinute`): reads only the ASCII digits `0`-`9`. The `%H` and `%M` of `strptime` also accept any other Unicode decimal digit.
- ParseStartHour (`TimeSlots.ParseStartHour`): through StrpHourMinute, a start written in non-ASCII digits, such as `"१४:००"`, gives the default 9.0 here; the source reads it as hour 14.0.
- DigitRun (`Tools.DigitRun`): takes only the ASCII digits `0`-`9`. The `\d` of `re.findall` also matches any other Unicode decimal digit, and `float()` converts such digits.
- Numbers (`Tools.Numbers`): through DigitRun, numbers written in non-ASCII digits are not found.
- ParseCost (`Tools.ParseCost`): through Numbers, `"₹५००"` costs 0.0 here; the source gives 500.0.
- Get (`Api.Get`): reading a property of `null` or `undefined` gives `undefined` here. In the source it throws a `TypeError`. So a `null` or missing day, block or halt makes `normalizeResponse` throw, at `day.schedule_blocks`, `block.time` or `halt.time`.
- NormalizeDay (`Api.NormalizeDay`): through Get, a `null` day gives a day of defaults instead of the source's `TypeError`.
- NormalizePlace (`Api.NormalizePlace`): through Get, a `null` block gives a block of defaults instead of the source's `TypeError`.
- NormalizeMeal (`Api.NormalizeMeal`): through Get, a `null` halt gives a meal of defaults instead of the source's `TypeError`.
- NormalizeResponse (`Api.NormalizeResponse`): through the three above, a response whose arrays hold `null` is normalised instead of throwing.
- Fields (`Api.Fields`): a non-object spreads no keys here. In the source, `{...day}`, `{...block}` and `{...halt}` of a string or an array copy its index keys (`"0"`, `"1"`, ...).
- `Number.prototype.toFixed(1)` and the rendering of a finite number by `String(n)` are parameters.
- `API_BASE_URL` is the `base` parameter of `Api.WithAbsoluteAudioUrl`.
- DayCard.SortedTimeline: through `CardStart`, a `start_minutes` that is NaN or an infinity is sorted after every finite start. The source's comparator subtracts it instead, and with NaN that comparator is inconsistent.
- DayCard.StartHourAsWritten: a `time` that is neither a string nor missing gives hour 0.0 here; the source throws at `item.time?.split`.
- DayCard.SortedTimelineOrdered: a `start_minutes` that is NaN or an infinity counts as "no numeric start" (sorted last). The source's comparator would subtract it, and NaN makes that comparator inconsistent.
- DayCard.StartHour: a `time` that is neither a string nor missing makes the source throw at `split`; the model gives hour 0.
- `normalizePlaceDetailResponse` and the other fetch wrappers in `services/api.ts` are not part of this model: they are network calls around the normalisation.
- All model calls, HTTP and async orchestration: `generate_content`, the async `final_route_architect`, the discovery, culinary, priority and optimisation agents, `get_place_detail_with_tts` and `asyncio.gather`. Only their pure callees are modelled.
- Culinary.CulinaryAgent: the model call and the parse of its reply are not modelled. The method receives the parsed payload, or `None` when the call or the parse failed.
- The SHA-256 digest in `_cache_key` and the JSON serialisation before it are parameters (`digest`, `serialize`). Only "equal normalised requests give equal keys" is stated.
- File and cache I/O: the itinerary cache, the place-detail JSON cache, `load_city_dataset` and the CSV conversion script.
- gTTS synthesis, `tts_langs()` and `_resolve_local_language`: foreign library calls. `_build_audio_artifacts` is modelled for its file and URL names only, with the cache directory as a parameter.
- `_apply_royal_honorifics`: regular-expression rewriting of display text, with no bearing on the plan.
- `_sorted_allowed_places` and `_slim_priority_payload`: they only shape the prompt sent to the model.
- The FastAPI routes, configuration, prompts, schemas and React components other than the day card and place icon: plumbing and presentation.
- Itinerary.SanitizeDays: in the source a single loop over the days does the fallback pick and the draft of each day. The model runs the fallback pass over all days first and then drafts every day. The result is the same: only the fallback cursor carries state from day to day, and drafting never reads it.
- Non-positive `num_days` is not rejected: the itinerary then has no days, as the source's `range` gives. The request schema's `gt=0` bound is not modelled.

## Findings

| source | as written | input that shows it | evidently intended | confidence | as-written member | corrected member |
|---|---|---|---|---|---|---|
| travel-ai-frontend/components/DayCard.tsx:30-35 | the hour read from the time text is clamped to [0, 23] but not floored | an item without `start_minutes` whose time is "9.5:00-10:00" gets start hour 9.5 | a whole hour in [0, 23], floored as on the `start_minutes` path (9 here) | low; not executed | DayCard.StartHourAsWritten, exhibited by DayCard.FractionalStartHour | DayCard.StartHour, with DayCard.StartHourIsFloorOfWritten |
