/** Cache keys for whole itineraries (`services/itinerary_cache_service.py`):
    a request is normalised (cities and interests trimmed and lowered,
    blank interests dropped, interests sorted) and the key is a digest of
    its canonical serialisation. */
module CacheService {
  import opened Wrappers
  import opened Text
  import opened Seqs
  import opened Sorting

  /** A request dict as received; a key missing from it is `None`.
      Interests are given by their `str()` text. */
  datatype RawRequest = RawRequest(homeCity: Option<string>, destinationCity: Option<string>, numDays: Option<int>,
                                   budget: Option<real>, interests: Option<seq<string>>)

  /** The normalised request. */
  datatype Request = Request(homeCity: string, destinationCity: string, numDays: int, budget: real, interests: seq<string>)

  /** `.strip().lower()`. */
  function Clean(s: string): string {
    Lower(Strip(s))
  }

  function CleanOf(): string -> string {
    (s: string) => Clean(s)
  }

  /** `sorted([str(i).strip().lower() for i in interests if str(i).strip()])`. */
  function NormalizeInterests(interests: seq<string>): seq<string> {
    SortStrings(Map(Filter(interests, NonBlank), CleanOf()))
  }

  /** `_normalize_request`, with the defaults of its `.get` calls. */
  function NormalizeRequest(r: RawRequest): Request {
    Request(Clean(r.homeCity.GetOr("")), Clean(r.destinationCity.GetOr("")), r.numDays.GetOr(0),
            r.budget.GetOr(0.0), NormalizeInterests(r.interests.GetOr([])))
  }

  /** `_cache_key`: the digest of the canonical serialisation of the
      normalised request. Serialisation (`json.dumps` with sorted keys) and
      SHA-256 are parameters. */
  function CacheKey(r: RawRequest, serialize: Request -> string, digest: string -> string): string {
    digest(serialize(NormalizeRequest(r)))
  }

  /** A clean string is stripped, lowered, and empty only if the input
      was blank. */
  lemma CleanShape(s: string)
    ensures Strip(Clean(s)) == Clean(s) && IsLowered(Clean(s))
    ensures Clean(s) == [] <==> Strip(s) == []
    ensures Clean(Clean(s)) == Clean(s)
  {
    StripLower(Strip(s));
    TrimIdempotent(s, IsPySpace);
    LowerIdempotent(Strip(s));
  }

  /** Case and surrounding whitespace do not matter. */
  lemma CleanIgnoresCaseAndSpace(s: string)
    ensures Clean(Lower(s)) == Clean(s)
    ensures Clean(Strip(s)) == Clean(s)
  {
    StripLower(s);
    LowerIdempotent(Strip(s));
    TrimIdempotent(s, IsPySpace);
  }

  predicate IsClean(e: string) {
    e != [] && Strip(e) == e && IsLowered(e)
  }

  lemma CleanedShape(kept: seq<string>)
    requires forall k :: 0 <= k < |kept| ==> NonBlank(kept[k])
    ensures forall k :: 0 <= k < |kept| ==> IsClean(Map(kept, CleanOf())[k])
  {
    var cleaned := Map(kept, CleanOf());
    forall k | 0 <= k < |kept|
      ensures IsClean(cleaned[k])
    {
      assert cleaned[k] == Clean(kept[k]);
      assert NonBlank(kept[k]);
      CleanShape(kept[k]);
    }
  }

  /** The normalised interests are sorted, each is non-empty, stripped and
      lower-case, and there is one per non-blank input: duplicates stay. */
  lemma InterestsShape(interests: seq<string>)
    ensures SortedStr(NormalizeInterests(interests))
    ensures |NormalizeInterests(interests)| == |Filter(interests, NonBlank)|
    ensures forall k :: 0 <= k < |NormalizeInterests(interests)| ==> IsClean(NormalizeInterests(interests)[k])
  {
    var kept := Filter(interests, NonBlank);
    var cleaned := Map(kept, CleanOf());
    var sorted := SortStrings(cleaned);
    SortStringsSorted(cleaned);
    CleanedShape(kept);
    forall k | 0 <= k < |sorted|
      ensures IsClean(sorted[k])
    {
      PermutationMember(sorted, cleaned, k);
    }
  }

  /** Any reordering of the interests normalises the same. */
  lemma InterestsIgnoreOrder(interests: seq<string>, reordered: seq<string>)
    requires multiset(reordered) == multiset(interests)
    ensures NormalizeInterests(reordered) == NormalizeInterests(interests)
  {
    MapFilterMultiset(reordered, interests, NonBlank, CleanOf());
    SortStringsPermutation(Map(Filter(reordered, NonBlank), CleanOf()), Map(Filter(interests, NonBlank), CleanOf()));
  }

  /** Changing the case of the interests does not change their
      normalisation. */
  lemma InterestsIgnoreCase(interests: seq<string>)
    ensures NormalizeInterests(Map(interests, (s: string) => Lower(s))) == NormalizeInterests(interests)
  {
    forall x: string
      ensures NonBlank(Lower(x)) == NonBlank(x) && CleanOf()(Lower(x)) == CleanOf()(x)
    {
      StripLower(x);
      CleanIgnoresCaseAndSpace(x);
    }
    MapFilterAbsorbs(interests, (s: string) => Lower(s), NonBlank, CleanOf());
  }

  /** Normalised interests normalise to themselves. */
  lemma InterestsIdempotent(interests: seq<string>)
    ensures NormalizeInterests(NormalizeInterests(interests)) == NormalizeInterests(interests)
  {
    var n := NormalizeInterests(interests);
    InterestsShape(interests);
    forall k | 0 <= k < |n|
      ensures NonBlank(n[k]) && CleanOf()(n[k]) == n[k]
    {
      assert IsClean(n[k]);
      LowerOfLowered(n[k]);
    }
    MapFilterFixed(n, NonBlank, CleanOf());
    SortStringsOfSorted(n);
  }

  /** The normalised request read back as a request. */
  function AsRaw(q: Request): RawRequest {
    RawRequest(Some(q.homeCity), Some(q.destinationCity), Some(q.numDays), Some(q.budget), Some(q.interests))
  }

  /** `_normalize_request` is idempotent. */
  lemma NormalizeIdempotent(r: RawRequest)
    ensures NormalizeRequest(AsRaw(NormalizeRequest(r))) == NormalizeRequest(r)
  {
    CleanShape(r.homeCity.GetOr(""));
    CleanShape(r.destinationCity.GetOr(""));
    InterestsIdempotent(r.interests.GetOr([]));
  }

  /** Two requests that differ only in the case and surrounding whitespace
      of their cities and in the order and case of their interests get the
      same cache key. */
  lemma CacheKeyIgnoresPresentation(r: RawRequest, s: RawRequest, serialize: Request -> string, digest: string -> string)
    requires r.numDays == s.numDays && r.budget == s.budget
    requires Clean(r.homeCity.GetOr("")) == Clean(s.homeCity.GetOr(""))
    requires Clean(r.destinationCity.GetOr("")) == Clean(s.destinationCity.GetOr(""))
    requires multiset(Map(r.interests.GetOr([]), (x: string) => Lower(x))) == multiset(Map(s.interests.GetOr([]), (x: string) => Lower(x)))
    ensures CacheKey(r, serialize, digest) == CacheKey(s, serialize, digest)
  {
    var a, b := r.interests.GetOr([]), s.interests.GetOr([]);
    InterestsIgnoreCase(a);
    InterestsIgnoreCase(b);
    InterestsIgnoreOrder(Map(a, (x: string) => Lower(x)), Map(b, (x: string) => Lower(x)));
  }
}
