/** The pure helpers of `services/place_detail_service.py`: the cache key
    of a place, native-script detection, list coercion, the default
    visiting constraints and cautions, and the audio file names. */
module PlaceDetail {
  import opened Wrappers
  import opened Text
  import opened Seqs

  // ---------------------------------------------------------------------
  // _canonical_key
  // ---------------------------------------------------------------------

  /** The characters of `[a-z0-9]`. */
  predicate IsKeyChar(c: char) { 'a' <= c <= 'z' || '0' <= c <= '9' }

  function NotKeyChar(): char -> bool {
    c => !IsKeyChar(c)
  }

  function IsUnderscore(): char -> bool {
    c => c == '_'
  }

  /** Only `[a-z0-9_]`, and no two underscores in a row. */
  predicate KeyShaped(s: string) {
    (forall i :: 0 <= i < |s| ==> IsKeyChar(s[i]) || s[i] == '_')
    && (forall i :: 0 <= i < |s| - 1 ==> IsKeyChar(s[i]) || IsKeyChar(s[i + 1]))
  }

  /** `re.sub(r"[^a-z0-9]+", "_", s)`: every maximal run of other
      characters becomes one underscore. */
  function Squash(s: string): (r: string)
    ensures KeyShaped(r)
    ensures s != [] && IsKeyChar(s[0]) ==> r != [] && r[0] == s[0]
    decreases |s|
  {
    if s == [] then []
    else if IsKeyChar(s[0]) then [s[0]] + Squash(s[1..])
    else "_" + Squash(TrimLeft(s[1..], NotKeyChar()))
  }

  /** A key-shaped string is its own squash. */
  lemma {:induction false} SquashKeyShaped(s: string)
    requires KeyShaped(s)
    ensures Squash(s) == s
    decreases |s|
  {
    if s != [] {
      assert KeyShaped(s[1..]);
      if !IsKeyChar(s[0]) {
        TrimLeftNoop(s[1..], NotKeyChar());
      }
      SquashKeyShaped(s[1..]);
      assert s == [s[0]] + s[1..];
    }
  }

  /** A slice of a key-shaped string is key-shaped. */
  lemma KeyShapedSlice(s: string, k: int, r: string)
    requires KeyShaped(s) && SliceAt(s, k, r)
    ensures KeyShaped(r)
  {
    forall i | 0 <= i < |r|
      ensures r[i] == s[k + i]
    {
    }
  }

  /** Stripping underscores from both ends keeps a string key-shaped. */
  lemma TrimKeyShaped(s: string)
    requires KeyShaped(s)
    ensures KeyShaped(Trim(s, IsUnderscore()))
  {
    var r := Trim(s, IsUnderscore());
    var k :| SliceAt(s, k, r);
    KeyShapedSlice(s, k, r);
  }

  /** The key of a text: stripped, lowered, runs of other characters
      squashed to `_`, and underscores stripped from both ends. */
  function KeyOf(raw: string): (r: string)
    ensures KeyShaped(r)
    ensures r != [] ==> r[0] != '_' && r[|r| - 1] != '_'
  {
    TrimKeyShaped(Squash(Lower(Strip(raw))));
    Trim(Squash(Lower(Strip(raw))), IsUnderscore())
  }

  /** `_canonical_key(city, place)`. */
  function CanonicalKey(city: string, place: string): string {
    KeyOf(city + "_" + place)
  }

  /** The cache key holds only `[a-z0-9_]`, has no underscore at either
      end and never two in a row. */
  lemma CanonicalKeyShape(city: string, place: string)
    ensures var r := CanonicalKey(city, place);
      && (forall i :: 0 <= i < |r| ==> IsKeyChar(r[i]) || r[i] == '_')
      && (r != [] ==> r[0] != '_' && r[|r| - 1] != '_')
      && (forall i :: 0 <= i < |r| - 1 ==> !(r[i] == '_' && r[i + 1] == '_'))
  {
    KeyShapedNoDoubleUnderscore(CanonicalKey(city, place));
  }

  lemma KeyShapedNoDoubleUnderscore(s: string)
    requires KeyShaped(s)
    ensures forall i :: 0 <= i < |s| - 1 ==> !(s[i] == '_' && s[i + 1] == '_')
  {
    forall i | 0 <= i < |s| - 1
      ensures !(s[i] == '_' && s[i + 1] == '_')
    {
      assert IsKeyChar(s[i]) || IsKeyChar(s[i + 1]);
    }
  }

  /** A key-shaped string holds no white space ... */
  lemma KeyShapedStripped(k: string)
    requires KeyShaped(k)
    ensures Strip(k) == k
  {
    if k != [] {
      assert IsKeyChar(k[0]) || k[0] == '_';
      assert !IsPySpace(k[0]);
      assert IsKeyChar(k[|k| - 1]) || k[|k| - 1] == '_';
      assert !IsPySpace(k[|k| - 1]);
    }
    TrimNoop(k, IsPySpace);
  }

  /** ... and no upper-case letter. */
  lemma KeyShapedLowered(k: string)
    requires KeyShaped(k)
    ensures Lower(k) == k
  {
    assert IsLowered(k);
    LowerOfLowered(k);
  }

  /** Keying a key gives it back: the key is a normal form. */
  lemma KeyOfKey(raw: string)
    ensures KeyOf(KeyOf(raw)) == KeyOf(raw)
  {
    var k := KeyOf(raw);
    KeyShapedStripped(k);
    KeyShapedLowered(k);
    SquashKeyShaped(k);
    TrimNoop(k, IsUnderscore());
  }

  // ---------------------------------------------------------------------
  // _contains_native_script
  // ---------------------------------------------------------------------

  /** The inclusive Unicode block of each language code's script. */
  function ScriptRange(code: string): Option<(int, int)> {
    if code == "hi" || code == "mr" then Some((0x0900, 0x097F))       // Devanagari
    else if code == "bn" || code == "as" then Some((0x0980, 0x09FF))  // Bengali-Assamese
    else if code == "ta" then Some((0x0B80, 0x0BFF))                  // Tamil
    else if code == "te" then Some((0x0C00, 0x0C7F))                  // Telugu
    else if code == "kn" then Some((0x0C80, 0x0CFF))                  // Kannada
    else if code == "ml" then Some((0x0D00, 0x0D7F))                  // Malayalam
    else if code == "gu" then Some((0x0A80, 0x0AFF))                  // Gujarati
    else if code == "pa" then Some((0x0A00, 0x0A7F))                  // Gurmukhi
    else None
  }

  /** `any(lo <= ord(ch) <= hi for ch in text)`. */
  function AnyInRange(text: string, lo: int, hi: int): (r: bool)
    ensures r <==> exists i :: 0 <= i < |text| && lo <= text[i] as int <= hi
    decreases |text|
  {
    if text == [] then false
    else
      var r := (lo <= text[0] as int <= hi) || AnyInRange(text[1..], lo, hi);
      assert forall i :: 1 <= i < |text| ==> text[i] == text[1..][i - 1];
      r
  }

  /** `_contains_native_script`: true for a code outside the table,
      otherwise whether some character lies in the code's block. */
  function ContainsNativeScript(text: string, code: string): (r: bool)
    ensures ScriptRange(code).None? ==> r
    ensures ScriptRange(code).Some? ==>
              (r <==> exists i :: 0 <= i < |text| && ScriptRange(code).value.0 <= text[i] as int <= ScriptRange(code).value.1)
  {
    match ScriptRange(code)
    case None => true
    case Some((lo, hi)) => AnyInRange(text, lo, hi)
  }

  /** Text written only below U+0900 (English letters, digits, Latin
      punctuation) never counts as native script for a code in the table. */
  lemma LatinIsNotNative(text: string, code: string)
    requires ScriptRange(code).Some?
    requires forall i :: 0 <= i < |text| ==> text[i] as int < 0x0900
    ensures !ContainsNativeScript(text, code)
  {
  }

  /** Adding text never removes native script already present. */
  lemma NativeScriptMonotone(a: string, b: string, code: string)
    requires ContainsNativeScript(a, code)
    ensures ContainsNativeScript(a + b, code) && ContainsNativeScript(b + a, code)
  {
    if ScriptRange(code).Some? {
      var (lo, hi) := ScriptRange(code).value;
      var i :| 0 <= i < |a| && lo <= a[i] as int <= hi;
      assert (a + b)[i] == a[i];
      assert (b + a)[|b| + i] == a[i];
    }
  }

  // ---------------------------------------------------------------------
  // _to_str_list
  // ---------------------------------------------------------------------

  /** A JSON value as `_to_str_list` sees it: a list (each element by its
      `str()` text), a string, or anything else. */
  datatype PyValue = PyList(items: seq<string>) | PyStr(text: string) | PyOther

  function StripOf(): string -> string {
    s => Strip(s)
  }

  /** `_to_str_list`. */
  function ToStrList(v: PyValue): (r: seq<string>)
    ensures v.PyStr? && Strip(v.text) != [] ==> r == [Strip(v.text)]
    ensures v.PyStr? && Strip(v.text) == [] ==> r == []
    ensures v.PyOther? ==> r == []
  {
    match v
    case PyList(items) => Map(Filter(items, NonBlank), StripOf())
    case PyStr(text) => if Strip(text) != [] then [Strip(text)] else []
    case PyOther => []
  }

  /** The list case reads the items in order: one more item adds its
      stripped text at the end exactly when it is not blank. */
  lemma ToStrListAppend(items: seq<string>, x: string)
    ensures ToStrList(PyList(items + [x])) == ToStrList(PyList(items)) + (if NonBlank(x) then [Strip(x)] else [])
  {
    FilterAppend(items, x, NonBlank);
    if NonBlank(x) {
      MapAppend(Filter(items, NonBlank), x, StripOf());
    }
  }


  /** Every entry is non-empty and already stripped; a list yields one
      entry per non-blank element, each the strip of an element. */
  lemma ToStrListShape(v: PyValue)
    ensures forall k :: 0 <= k < |ToStrList(v)| ==> ToStrList(v)[k] != [] && Strip(ToStrList(v)[k]) == ToStrList(v)[k]
    ensures v.PyList? ==> |ToStrList(v)| == |Filter(v.items, NonBlank)|
    ensures v.PyList? ==> forall k :: 0 <= k < |ToStrList(v)| ==> exists j :: 0 <= j < |v.items| && ToStrList(v)[k] == Strip(v.items[j])
    ensures v.PyList? ==> ToStrList(v) == Map(Filter(v.items, NonBlank), StripOf())
  {
    var r := ToStrList(v);
    forall k | 0 <= k < |r|
      ensures r[k] != [] && Strip(r[k]) == r[k]
    {
      if v.PyList? {
        var kept := Filter(v.items, NonBlank);
        assert r[k] == Strip(kept[k]);
        TrimIdempotent(kept[k], IsPySpace);
      } else {
        TrimIdempotent(v.text, IsPySpace);
      }
    }
    if v.PyList? {
      forall k | 0 <= k < |r|
        ensures exists j :: 0 <= j < |v.items| && r[k] == Strip(v.items[j])
      {
        MapFilterOrigin(v.items, NonBlank, StripOf(), r[k]);
      }
    }
  }

  // ---------------------------------------------------------------------
  // Default constraints and cautions
  // ---------------------------------------------------------------------

  const ReligiousWords: seq<string> := ["temple", "mandir", "devi", "ganapati", "dargah", "masjid", "church"]
  const RuggedWords: seq<string> := ["fort", "hill", "peak", "viewpoint"]

  /** Which default texts apply to a place. */
  datatype SiteKind = Religious | Rugged | General

  /** The keyword tests of the defaults, religious keywords first. */
  function SiteKindOf(place: string): (k: SiteKind)
    ensures k == Religious <==> AnyContains(Lower(place), ReligiousWords)
    ensures k == Rugged <==> !AnyContains(Lower(place), ReligiousWords) && AnyContains(Lower(place), RuggedWords)
  {
    var text := Lower(place);
    if AnyContains(text, ReligiousWords) then Religious
    else if AnyContains(text, RuggedWords) then Rugged
    else General
  }

  const DarshanTimings: string := "Follow site-specific darshan/prayer timings before planning arrival."
  const WeatherCheck: string := "Check weather and entry timing before departure."
  const ModestClothing: string := "Wear modest, tradition-appropriate clothing at religious premises."
  const SturdyFootwear: string := "Use sturdy footwear and carry water for stairs/uneven terrain."

  const ReligiousConstraints: seq<string> := [
    DarshanTimings,
    "Some sanctum areas may restrict photography and videography."]
  const RuggedConstraints: seq<string> := [
    WeatherCheck,
    "Some sections may have uneven steps or restricted zones."]
  const GeneralConstraints: seq<string> := [
    "Verify latest opening hours and ticket policy before visiting."]
  const ReligiousCautions: seq<string> := [
    ModestClothing,
    "Remove footwear where required and maintain silence near sanctum/prayer spaces."]
  const RuggedCautions: seq<string> := [
    SturdyFootwear,
    "Avoid risky edges and low-light climbs, especially in monsoon."]
  const GeneralCautions: seq<string> := [
    "Respect local rules and security guidance on-site."]

  function ConstraintsFor(k: SiteKind): seq<string> {
    match k
    case Religious => ReligiousConstraints
    case Rugged => RuggedConstraints
    case General => GeneralConstraints
  }

  function CautionsFor(k: SiteKind): seq<string> {
    match k
    case Religious => ReligiousCautions
    case Rugged => RuggedCautions
    case General => GeneralCautions
  }

  /** `_default_constraints`. */
  function DefaultConstraints(place: string): (r: seq<string>)
    ensures |r| >= 1
    ensures |r| == 1 <==> SiteKindOf(place) == General
  {
    ConstraintsFor(SiteKindOf(place))
  }

  /** `_default_special_cautions`. */
  function DefaultSpecialCautions(place: string): (r: seq<string>)
    ensures |r| >= 1
    ensures |r| == 1 <==> SiteKindOf(place) == General
  {
    CautionsFor(SiteKindOf(place))
  }

  /** Religious keywords take priority: a place that also names a fort or
      hill gets the religious texts. */
  lemma ReligiousFirst(place: string)
    requires AnyContains(Lower(place), ReligiousWords) && AnyContains(Lower(place), RuggedWords)
    ensures SiteKindOf(place) == Religious
    ensures DefaultConstraints(place) == ConstraintsFor(Religious)
    ensures DefaultSpecialCautions(place) == CautionsFor(Religious)
  {
  }

  /** Case does not matter. */
  lemma SiteKindIgnoresCase(place: string)
    ensures SiteKindOf(Lower(place)) == SiteKindOf(place)
  {
    LowerIdempotent(place);
  }

  /** `_to_str_list(value) or _default_constraints(place)`, and the same
      for cautions: what the narration carries is never empty. */
  function ConstraintsOrDefault(v: PyValue, place: string): (r: seq<string>)
    ensures |r| >= 1
    ensures ToStrList(v) != [] ==> r == ToStrList(v)
  {
    if ToStrList(v) != [] then ToStrList(v) else DefaultConstraints(place)
  }

  function CautionsOrDefault(v: PyValue, place: string): (r: seq<string>)
    ensures |r| >= 1
    ensures ToStrList(v) != [] ==> r == ToStrList(v)
  {
    if ToStrList(v) != [] then ToStrList(v) else DefaultSpecialCautions(place)
  }

  // ---------------------------------------------------------------------
  // _build_audio_artifacts
  // ---------------------------------------------------------------------

  datatype Audio = Audio(audioFile: string, audioUrl: string, langCode: string)
  datatype AudioArtifacts = AudioArtifacts(english: Audio, hindi: Audio)

  const UrlPrefix: string := "/cache/place.detail.output/"

  /** The file under the cache directory and the URL of one language's
      narration. */
  function AudioFor(cacheDir: string, cacheKey: string, lang: string): Audio {
    var name := cacheKey + ("_" + lang + ".mp3");
    Audio((cacheDir + "/") + name, UrlPrefix + name, lang)
  }

  /** `_build_audio_artifacts`; the cache directory is a parameter. */
  function BuildAudioArtifacts(cacheDir: string, cacheKey: string): (r: AudioArtifacts)
    ensures r.english.langCode == "en" && r.hindi.langCode == "hi"
    ensures r.english.audioFile != r.hindi.audioFile && r.english.audioUrl != r.hindi.audioUrl
    ensures r.english.audioFile == cacheDir + "/" + cacheKey + "_en.mp3"
    ensures r.hindi.audioFile == cacheDir + "/" + cacheKey + "_hi.mp3"
    ensures r.english.audioUrl == "/cache/place.detail.output/" + cacheKey + "_en.mp3"
    ensures r.hindi.audioUrl == "/cache/place.detail.output/" + cacheKey + "_hi.mp3"
  {
    var r := AudioArtifacts(AudioFor(cacheDir, cacheKey, "en"), AudioFor(cacheDir, cacheKey, "hi"));
    assert r.english.audioFile[|r.english.audioFile| - 6] != r.hindi.audioFile[|r.hindi.audioFile| - 6];
    assert r.english.audioUrl[|r.english.audioUrl| - 6] != r.hindi.audioUrl[|r.hindi.audioUrl| - 6];
    r
  }

  /** `p + (a + s) == p + (b + s)` only when `a == b`. */
  lemma CancelAffixes(p: string, a: string, b: string, s: string)
    requires p + (a + s) == p + (b + s)
    ensures a == b
  {
    assert |a| == |b|;
    assert a == (p + (a + s))[|p|..|p| + |a|];
    assert b == (p + (b + s))[|p|..|p| + |b|];
  }

  lemma AudioForInjective(cacheDir: string, k1: string, k2: string, lang: string)
    requires k1 != k2
    ensures AudioFor(cacheDir, k1, lang).audioUrl != AudioFor(cacheDir, k2, lang).audioUrl
    ensures AudioFor(cacheDir, k1, lang).audioFile != AudioFor(cacheDir, k2, lang).audioFile
  {
    var s := "_" + lang + ".mp3";
    if AudioFor(cacheDir, k1, lang).audioUrl == AudioFor(cacheDir, k2, lang).audioUrl {
      CancelAffixes(UrlPrefix, k1, k2, s);
    }
    if AudioFor(cacheDir, k1, lang).audioFile == AudioFor(cacheDir, k2, lang).audioFile {
      CancelAffixes(cacheDir + "/", k1, k2, s);
    }
  }

  /** Different cache keys never share an audio file or URL. */
  lemma AudioArtifactsInjective(cacheDir: string, k1: string, k2: string)
    requires k1 != k2
    ensures BuildAudioArtifacts(cacheDir, k1).english.audioUrl != BuildAudioArtifacts(cacheDir, k2).english.audioUrl
    ensures BuildAudioArtifacts(cacheDir, k1).hindi.audioUrl != BuildAudioArtifacts(cacheDir, k2).hindi.audioUrl
    ensures BuildAudioArtifacts(cacheDir, k1).english.audioFile != BuildAudioArtifacts(cacheDir, k2).english.audioFile
    ensures BuildAudioArtifacts(cacheDir, k1).hindi.audioFile != BuildAudioArtifacts(cacheDir, k2).hindi.audioFile
  {
    AudioForInjective(cacheDir, k1, k2, "en");
    AudioForInjective(cacheDir, k1, k2, "hi");
  }
}
