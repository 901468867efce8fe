/** Time ranges of itinerary blocks, `"HH:MM-HH:MM"`: reading the start
    hour back (`_parse_start_hour`) and writing a slot from minutes since
    midnight (`_format_slot`) in `services/final_route_architect.py`. */
module TimeSlots {
  import opened Wrappers
  import opened Text

  /** What `%H` accepts: one digit, or two digits from 00 to 23. */
  predicate ValidHour(h: string) {
    AllDigits(h) && (|h| == 1 || (|h| == 2 && (h[0] <= '1' || (h[0] == '2' && h[1] <= '3'))))
  }

  /** What `%M` accepts: one digit, or two digits from 00 to 59. */
  predicate ValidMinute(m: string) {
    AllDigits(m) && (|m| == 1 || (|m| == 2 && m[0] <= '5'))
  }

  lemma TwoDigits(s: string)
    requires |s| == 2 && AllDigits(s)
    ensures DigitsValue(s) == 10 * DigitValue(s[0]) + DigitValue(s[1])
  {
    assert DigitsValue(s) == 10 * DigitsValue(s[..1]) + DigitValue(s[1]);
    assert s[..1][..0] == [];
    assert DigitsValue(s[..1]) == 10 * DigitsValue(s[..1][..0]) + DigitValue(s[0]);
  }

  lemma HourBound(h: string)
    requires ValidHour(h)
    ensures DigitsValue(h) < 24
  {
    if |h| == 2 { TwoDigits(h); }
  }

  lemma MinuteBound(m: string)
    requires ValidMinute(m)
    ensures DigitsValue(m) < 60
  {
    if |m| == 2 { TwoDigits(m); }
  }

  /** `datetime.strptime(s, "%H:%M")` over ASCII digits: an hour, a colon
      and a minute, with nothing left over; `None` where Python raises. */
  function StrpHourMinute(s: string): (r: Option<(nat, nat)>)
    ensures r.Some? ==> r.value.0 < 24 && r.value.1 < 60
    ensures r.Some? <==> (exists k :: 0 <= k < |s| && s[k] == ':' && ValidHour(s[..k]) && ValidMinute(s[k + 1..]))
  {
    var h := BeforeSep(s, ':');
    if |h| == |s| then None
    else
      var m := s[|h| + 1..];
      if ValidHour(h) && ValidMinute(m) then
        HourBound(h);
        MinuteBound(m);
        Some((DigitsValue(h), DigitsValue(m)))
      else None
  }

  /** `_parse_start_hour`: the hour of the text before the first `-`, with
      minutes as a fraction; 9.0 when that text is not `%H:%M`. */
  function ParseStartHour(timeRange: string): (r: real)
    ensures 0.0 <= r < 24.0
  {
    match StrpHourMinute(Strip(BeforeSep(timeRange, '-')))
    case Some((h, m)) => h as real + m as real / 60.0
    case None => 9.0
  }

  /** Minutes since midnight as zero-padded `HH:MM`. */
  function Clock(minutes: nat): (r: string)
    ensures '-' !in r
  {
    Pad2(minutes / 60) + ":" + Pad2(minutes % 60)
  }

  /** `_format_slot`: start and end as zero-padded `HH:MM`. */
  function FormatSlot(startMinutes: nat, durationMinutes: nat): string {
    Clock(startMinutes) + "-" + Clock(startMinutes + durationMinutes)
  }

  /** Below 100, `Pad2` is exactly two digits: tens then units. */
  lemma Pad2Small(n: nat)
    requires n < 100
    ensures Pad2(n) == [DigitChar(n / 10), DigitChar(n % 10)]
  {
    if n >= 10 {
      assert NatToString(n / 10) == [DigitChar(n / 10)];
    }
  }

  lemma {:induction false} BeforeSepAt(a: string, sep: char, b: string)
    requires sep !in a
    ensures BeforeSep(a + [sep] + b, sep) == a
    decreases |a|
  {
    if a != [] {
      assert (a + [sep] + b)[1..] == a[1..] + [sep] + b;
      BeforeSepAt(a[1..], sep, b);
    }
  }

  lemma DigitsNoSep(s: string, sep: char)
    requires AllDigits(s) && !IsDigit(sep)
    ensures sep !in s
  {
  }

  /** The start half of a formatted slot, before its `-`, is its start clock. */
  lemma StartText(startMinutes: nat, durationMinutes: nat)
    ensures BeforeSep(FormatSlot(startMinutes, durationMinutes), '-') == Clock(startMinutes)
  {
    BeforeSepAt(Clock(startMinutes), '-', Clock(startMinutes + durationMinutes));
  }

  lemma StripClock(minutes: nat)
    ensures Strip(Clock(minutes)) == Clock(minutes)
  {
    var c := Clock(minutes);
    assert c != [] ==> !IsPySpace(c[0]) && !IsPySpace(c[|c| - 1]);
    TrimNoop(c, IsPySpace);
  }

  /** `strptime` reads a padded hour and minute back. */
  lemma StrpPadded(h: nat, m: nat)
    requires h < 24 && m < 60
    ensures StrpHourMinute(Pad2(h) + ":" + Pad2(m)) == Some((h, m))
  {
    var hm := Pad2(h) + ":" + Pad2(m);
    Pad2Small(h);
    Pad2Small(m);
    DigitsNoSep(Pad2(h), ':');
    BeforeSepAt(Pad2(h), ':', Pad2(m));
    assert hm[|Pad2(h)| + 1..] == Pad2(m);
  }

  /** Reading a formatted slot gives back its start, in hours: a block timed
      at `s` minutes is grouped by `s / 60`. */
  lemma ParseFormatRoundTrip(startMinutes: nat, durationMinutes: nat)
    requires startMinutes < 24 * 60
    ensures ParseStartHour(FormatSlot(startMinutes, durationMinutes)) == startMinutes as real / 60.0
  {
    var sh, sm := startMinutes / 60, startMinutes % 60;
    StartText(startMinutes, durationMinutes);
    StripClock(startMinutes);
    StrpPadded(sh, sm);
    assert sh as real + sm as real / 60.0 == (60 * sh + sm) as real / 60.0;
  }

  /** A start that is not `%H:%M` reads as 9:00 and so counts as morning. */
  lemma MalformedStartIsNine(timeRange: string)
    requires StrpHourMinute(Strip(BeforeSep(timeRange, '-'))).None?
    ensures ParseStartHour(timeRange) == 9.0
  {
  }
}
