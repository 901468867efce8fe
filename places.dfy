/** The loosely typed place record that flows between the services (a
    Python dict read with `.get`), and geographic points. */
module Places {
  import opened Wrappers

  /** A place as the services receive it from the city dataset or from the
      model's augmentation.
      - `lat`, `lng`: `Some(x)` exactly when the dict value is an `int` or a
        `float` (the `isinstance` test of the source); anything else, or a
        missing key, is `None`.
      - `rating`, `ticketPrice`: `Some(x)` when Python's `float()` accepts
        the value, `None` when it raises (missing key, `None`, junk text).
      - text fields hold `str()` of the dict value, `""` when missing. */
  datatype RawPlace = RawPlace(
    name: string,
    lat: Option<real>,
    lng: Option<real>,
    category: string,
    rating: Option<real>,
    ticketPrice: Option<real>,
    effortType: string,
    imageUrl: string,
    speciality: string,
    localNote: string,
    bestTime: string
  )

  datatype Point = Point(lat: real, lng: real)

  /** `_is_valid_lat_lng`: both coordinates are numbers. */
  predicate HasCoords(p: RawPlace) {
    p.lat.Some? && p.lng.Some?
  }

  function PointOf(p: RawPlace): Point
    requires HasCoords(p)
  {
    Point(p.lat.value, p.lng.value)
  }

  /** A distance function is symmetric; great-circle distance is. */
  ghost predicate Symmetric(dist: (Point, Point) -> real) {
    forall p, q :: dist(p, q) == dist(q, p)
  }
}
