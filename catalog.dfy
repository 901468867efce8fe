/** The verified place and food indexes the route architect repairs
    itineraries against (`services/final_route_architect.py`), keyed by
    canonical name, and the catalog centroid. */
module Catalog {
  import opened Wrappers
  import opened Text
  import opened Names
  import opened Places
  import opened Seqs
  import opened Dicts

  // ---------------------------------------------------------------------
  // Place index
  // ---------------------------------------------------------------------

  /** An entry of the place index. */
  datatype IndexedPlace = IndexedPlace(
    name: string,
    lat: real,
    lng: real,
    ticketPrice: real,
    category: string,
    effortType: string,
    rating: real,
    imageUrl: string
  )

  type PlaceIndex = Dict<IndexedPlace>

  /** The canonical name of the stripped name. */
  function PlaceKey(p: RawPlace): string {
    Canonical(Strip(p.name))
  }

  /** A place enters the index when its canonical name is not blank and both
      coordinates are numbers. */
  predicate PlaceKept(p: RawPlace) {
    PlaceKey(p) != [] && HasCoords(p)
  }

  function PlaceEntry(p: RawPlace): IndexedPlace {
    IndexedPlace(Strip(p.name), p.lat.GetOr(0.0), p.lng.GetOr(0.0), p.ticketPrice.GetOr(0.0),
                 p.category, p.effortType, p.rating.GetOr(0.0), Strip(p.imageUrl))
  }

  /** `_build_place_index`: later places overwrite earlier ones with the same
      canonical name, keeping the key's first position. */
  method BuildPlaceIndex(places: seq<RawPlace>) returns (index: PlaceIndex)
    ensures index == Build(places, PlaceKey, PlaceKept, PlaceEntry)
  {
    index := BuildLoop(places, PlaceKey, PlaceKept, PlaceEntry);
  }

  /** What the rest of the route architect relies on: the index is a valid
      dict, and every entry is stored under the canonical form of its own
      name, so looking a stored name up again finds the same entry. */
  ghost predicate WellKeyed(index: PlaceIndex) {
    Valid(index) && forall c :: c in index.entries ==> Canonical(index.entries[c].name) == c
  }

  lemma PlaceIndexWellKeyed(places: seq<RawPlace>)
    ensures WellKeyed(Build(places, PlaceKey, PlaceKept, PlaceEntry))
  {
    var index := Build(places, PlaceKey, PlaceKept, PlaceEntry);
    BuildValid(places, PlaceKey, PlaceKept, PlaceEntry);
    forall c | c in index.entries
      ensures Canonical(index.entries[c].name) == c
    {
      BuildEntryFrom(places, PlaceKey, PlaceKept, PlaceEntry, c);
      var i :| 0 <= i < |places| && PlaceKept(places[i]) && PlaceKey(places[i]) == c
               && index.entries[c] == PlaceEntry(places[i]);
      CanonicalIgnoresStrip(places[i].name);
    }
  }

  /** A canonical name is indexed exactly when some place with that name
      has numeric coordinates. */
  lemma PlaceIndexKeys(places: seq<RawPlace>, c: string)
    ensures c in Build(places, PlaceKey, PlaceKept, PlaceEntry).entries
        <==> exists i :: 0 <= i < |places| && PlaceKept(places[i]) && PlaceKey(places[i]) == c
  {
    BuildKeys(places, PlaceKey, PlaceKept, PlaceEntry, c);
  }

  /** The last located place with a canonical name supplies its entry. */
  lemma PlaceIndexLastWins(places: seq<RawPlace>, j: nat)
    requires j < |places| && PlaceKept(places[j])
    requires forall i :: j < i < |places| && PlaceKept(places[i]) ==> PlaceKey(places[i]) != PlaceKey(places[j])
    ensures PlaceKey(places[j]) in Build(places, PlaceKey, PlaceKept, PlaceEntry).entries
    ensures Build(places, PlaceKey, PlaceKept, PlaceEntry).entries[PlaceKey(places[j])] == PlaceEntry(places[j])
  {
    BuildLastWins(places, PlaceKey, PlaceKept, PlaceEntry, j);
  }

  /** Every indexed place has the coordinates of a located input place. */
  lemma PlaceIndexLocated(places: seq<RawPlace>, c: string)
    requires c in Build(places, PlaceKey, PlaceKept, PlaceEntry).entries
    ensures exists i :: (0 <= i < |places| && HasCoords(places[i])
                         && Build(places, PlaceKey, PlaceKept, PlaceEntry).entries[c].lat == places[i].lat.value
                         && Build(places, PlaceKey, PlaceKept, PlaceEntry).entries[c].lng == places[i].lng.value)
  {
    BuildEntryFrom(places, PlaceKey, PlaceKept, PlaceEntry, c);
  }

  // ---------------------------------------------------------------------
  // Food index
  // ---------------------------------------------------------------------

  /** A food outlet as the culinary step reports it. `signatureDishes` is
      `None` when the value is not a list. */
  datatype RawOutlet = RawOutlet(
    name: string,
    area: string,
    signatureDishes: Option<seq<string>>,
    mealSlots: seq<string>,
    cuisine: string
  )

  datatype FoodOutlet = FoodOutlet(
    name: string,
    area: string,
    signatureDishes: seq<string>,
    mealSlots: seq<string>,
    cuisine: string
  )

  type FoodIndex = Dict<FoodOutlet>

  function OutletKey(o: RawOutlet): string {
    Canonical(Strip(o.name))
  }

  predicate OutletKept(o: RawOutlet) {
    OutletKey(o) != []
  }

  /** `[str(slot).strip() for slot in slots if str(slot).strip()]`. */
  function CleanSlots(slots: seq<string>): (r: seq<string>)
    ensures |r| <= |slots|
    ensures forall k :: 0 <= k < |r| ==> r[k] != []
    ensures forall x :: x in r <==> x != [] && exists s :: s in slots && Strip(s) == x
  {
    var kept := Filter(slots, NonBlank);
    var r := Map(kept, Strip);
    assert forall k :: 0 <= k < |r| ==> r[k] == Strip(kept[k]) && NonBlank(kept[k]);
    MapFilterMembers(slots, NonBlank, Strip);
    r
  }

  function OutletEntry(o: RawOutlet): FoodOutlet {
    FoodOutlet(Strip(o.name), Strip(o.area), o.signatureDishes.GetOr([]), CleanSlots(o.mealSlots), Strip(o.cuisine))
  }

  /** `_build_food_index`: outlets with a non-blank canonical name, later
      ones overwriting earlier ones. */
  method BuildFoodIndex(outlets: seq<RawOutlet>) returns (index: FoodIndex)
    ensures index == Build(outlets, OutletKey, OutletKept, OutletEntry)
  {
    index := BuildLoop(outlets, OutletKey, OutletKept, OutletEntry);
  }

  /** An outlet is indexed exactly when its canonical name is one of the
      input names, and the food index is a valid dict. */
  lemma FoodIndexKeys(outlets: seq<RawOutlet>, c: string)
    ensures Valid(Build(outlets, OutletKey, OutletKept, OutletEntry))
    ensures c in Build(outlets, OutletKey, OutletKept, OutletEntry).entries
        <==> c != [] && exists i :: 0 <= i < |outlets| && OutletKey(outlets[i]) == c
  {
    BuildValid(outlets, OutletKey, OutletKept, OutletEntry);
    BuildKeys(outlets, OutletKey, OutletKept, OutletEntry, c);
  }

  // ---------------------------------------------------------------------
  // Centroid
  // ---------------------------------------------------------------------

  function Lats(ps: seq<IndexedPlace>): seq<real> {
    Map(ps, (p: IndexedPlace) => p.lat)
  }

  function Lngs(ps: seq<IndexedPlace>): seq<real> {
    Map(ps, (p: IndexedPlace) => p.lng)
  }

  /** `_mean_lat_lng` over the index values: the mean coordinates, or
      (0, 0) for an empty index. */
  function MeanLatLng(values: seq<IndexedPlace>): Point {
    if values == [] then Point(0.0, 0.0)
    else Point(Total(Lats(values)) / |values| as real, Total(Lngs(values)) / |values| as real)
  }

  /** The centroid lies in every box that holds all catalog places. */
  lemma MeanLatLngInBox(values: seq<IndexedPlace>, box: (real, real, real, real))
    requires values != []
    requires forall k :: 0 <= k < |values| ==> box.0 <= values[k].lat <= box.1 && box.2 <= values[k].lng <= box.3
    ensures box.0 <= MeanLatLng(values).lat <= box.1
    ensures box.2 <= MeanLatLng(values).lng <= box.3
  {
    MeanInBounds(Lats(values), box.0, box.1);
    MeanInBounds(Lngs(values), box.2, box.3);
  }

  /** The mean of terms within `[lo, hi]` is within `[lo, hi]`. */
  lemma MeanInBounds(xs: seq<real>, lo: real, hi: real)
    requires xs != []
    requires forall k :: 0 <= k < |xs| ==> lo <= xs[k] <= hi
    ensures lo <= Total(xs) / |xs| as real <= hi
  {
    TotalBounds(xs, lo, hi);
    DivBounds(Total(xs), |xs| as real, lo, hi);
  }

  lemma DivBounds(t: real, n: real, lo: real, hi: real)
    requires n > 0.0 && lo * n <= t <= hi * n
    ensures lo <= t / n <= hi
  {
  }
}
