/** String primitives shared by the Python services and the TypeScript
    front end: the two languages' whitespace sets, ASCII lowering, strip/trim,
    Python's `split()` / `" ".join`, substring search, `str.replace`,
    `split(sep)`, `str.title()` and decimal digits. */
module Text {
  import opened Seqs

  // ---------------------------------------------------------------------
  // Character classes
  // ---------------------------------------------------------------------

  /** The characters for which Python's `str.isspace()` holds. */
  predicate IsPySpace(c: char) {
    var n := c as int;
    n == 32 || 9 <= n <= 13 || 28 <= n <= 31 || n == 0x85 || n == 0xA0 || n == 0x1680
    || 0x2000 <= n <= 0x200A || n == 0x2028 || n == 0x2029 || n == 0x202F || n == 0x205F || n == 0x3000
  }

  /** The characters JavaScript's `String.prototype.trim()` removes
      (WhiteSpace and LineTerminator of ECMA-262). Unlike Python it trims
      U+FEFF and keeps U+001C..U+001F and U+0085. */
  predicate IsJsSpace(c: char) {
    var n := c as int;
    if n <= 32 then n == 32 || 9 <= n <= 13
    else if n < 0xA0 then false
    else (n == 0xA0 || n == 0x1680 || 0x2000 <= n <= 0x200A
      || n == 0x2028 || n == 0x2029 || n == 0x202F || n == 0x205F || n == 0x3000 || n == 0xFEFF)
  }

  predicate IsDigit(c: char) { '0' <= c <= '9' }

  predicate IsAsciiLower(c: char) { 'a' <= c <= 'z' }

  predicate IsAsciiUpper(c: char) { 'A' <= c <= 'Z' }

  predicate IsAsciiLetter(c: char) { IsAsciiLower(c) || IsAsciiUpper(c) }

  function LowerChar(c: char): (r: char)
    ensures !IsAsciiUpper(r)
    ensures IsAsciiUpper(c) ==> IsAsciiLower(r)
    ensures !IsAsciiUpper(c) ==> r == c
  {
    if IsAsciiUpper(c) then (c as int + 32) as char else c
  }

  function UpperChar(c: char): (r: char)
    ensures !IsAsciiLower(r)
    ensures IsAsciiLower(c) ==> IsAsciiUpper(r)
    ensures !IsAsciiLower(c) ==> r == c
  {
    if IsAsciiLower(c) then (c as int - 32) as char else c
  }

  /** `str.lower()` / `toLowerCase()` restricted to ASCII letters. */
  function Lower(s: string): (r: string)
    ensures |r| == |s|
    ensures forall i :: 0 <= i < |s| ==> r[i] == LowerChar(s[i])
  {
    if s == [] then [] else [LowerChar(s[0])] + Lower(s[1..])
  }

  /** No ASCII upper-case letter, so lowering leaves the text unchanged. */
  predicate IsLowered(s: string) {
    forall i :: 0 <= i < |s| ==> !IsAsciiUpper(s[i])
  }

  lemma LowerOfLowered(s: string)
    requires IsLowered(s)
    ensures Lower(s) == s
  {
  }

  lemma LowerIdempotent(s: string)
    ensures IsLowered(Lower(s)) && Lower(Lower(s)) == Lower(s)
  {
  }

  lemma LowerAppend(a: string, b: string)
    ensures Lower(a + b) == Lower(a) + Lower(b)
  {
  }

  // ---------------------------------------------------------------------
  // strip / trim
  // ---------------------------------------------------------------------

  function TrimLeft(s: string, sp: char -> bool): (r: string)
    ensures |r| <= |s| && r == s[|s| - |r|..]
    ensures r != [] ==> !sp(r[0])
    ensures forall i :: 0 <= i < |s| - |r| ==> sp(s[i])
  {
    if |s| > 0 && sp(s[0]) then
      var r := TrimLeft(s[1..], sp);
      assert forall i :: 1 <= i < |s| - |r| ==> s[i] == s[1..][i - 1];
      r
    else s
  }

  function TrimRight(s: string, sp: char -> bool): (r: string)
    ensures |r| <= |s| && r == s[..|r|]
    ensures r != [] ==> !sp(r[|r| - 1])
    ensures forall i :: |r| <= i < |s| ==> sp(s[i])
  {
    if |s| > 0 && sp(s[|s| - 1]) then TrimRight(s[..|s| - 1], sp) else s
  }

  /** `r` occurs in `s` starting at position `k`. */
  predicate SliceAt(s: string, k: int, r: string) {
    0 <= k <= |s| - |r| && s[k..k + |r|] == r
  }

  /** Removes every leading and trailing character satisfying `sp`. */
  function Trim(s: string, sp: char -> bool): (r: string)
    ensures r != [] ==> !sp(r[0]) && !sp(r[|r| - 1])
    ensures exists k :: SliceAt(s, k, r)
  {
    var t := TrimLeft(s, sp);
    var r := TrimRight(t, sp);
    assert SliceAt(s, |s| - |t|, r);
    r
  }

  /** Python's `str.strip()` with no argument. */
  function Strip(s: string): string { Trim(s, IsPySpace) }

  /** A text Python reads as true once stripped: `if s.strip()`. */
  predicate NonBlank(s: string) { Strip(s) != [] }

  /** JavaScript's `String.prototype.trim()`: leading, then trailing,
      whitespace removed. It is written out on its own, with no
      postconditions, because the number parser unfolds it; `JsTrimIsTrim`
      ties it to `Trim`, whose lemmas then apply. */
  function JsTrim(s: string): string { JsTrimEnd(JsTrimStart(s)) }

  function JsTrimStart(s: string): string {
    if s != [] && IsJsSpace(s[0]) then JsTrimStart(s[1..]) else s
  }

  function JsTrimEnd(s: string): string {
    if s != [] && IsJsSpace(s[|s| - 1]) then JsTrimEnd(s[..|s| - 1]) else s
  }

  lemma {:induction false} JsTrimStartIsTrimLeft(s: string)
    ensures JsTrimStart(s) == TrimLeft(s, IsJsSpace)
  {
    if s != [] && IsJsSpace(s[0]) {
      JsTrimStartIsTrimLeft(s[1..]);
    }
  }

  lemma {:induction false} JsTrimEndIsTrimRight(s: string)
    ensures JsTrimEnd(s) == TrimRight(s, IsJsSpace)
  {
    if s != [] && IsJsSpace(s[|s| - 1]) {
      JsTrimEndIsTrimRight(s[..|s| - 1]);
    }
  }

  /** `JsTrim` is `Trim` with JavaScript's whitespace. */
  lemma JsTrimIsTrim(s: string)
    ensures JsTrim(s) == Trim(s, IsJsSpace)
  {
    JsTrimStartIsTrimLeft(s);
    JsTrimEndIsTrimRight(JsTrimStart(s));
  }

  /** Text that neither starts nor ends with whitespace is its own trim. */
  lemma JsTrimNoop(s: string)
    requires s != [] ==> !IsJsSpace(s[0]) && !IsJsSpace(s[|s| - 1])
    ensures JsTrim(s) == s
  {
  }

  /** Trimming twice is trimming once. */
  lemma JsTrimIdempotent(s: string)
    ensures JsTrim(JsTrim(s)) == JsTrim(s)
  {
    JsTrimIsTrim(s);
    JsTrimIsTrim(JsTrim(s));
    TrimIdempotent(s, IsJsSpace);
  }

  lemma TrimLeftNoop(s: string, sp: char -> bool)
    requires s != [] ==> !sp(s[0])
    ensures TrimLeft(s, sp) == s
  {
  }

  lemma TrimRightNoop(s: string, sp: char -> bool)
    requires s != [] ==> !sp(s[|s| - 1])
    ensures TrimRight(s, sp) == s
  {
  }

  lemma TrimNoop(s: string, sp: char -> bool)
    requires s != [] ==> !sp(s[0]) && !sp(s[|s| - 1])
    ensures Trim(s, sp) == s
  {
    TrimLeftNoop(s, sp);
    TrimRightNoop(s, sp);
  }

  lemma TrimIdempotent(s: string, sp: char -> bool)
    ensures Trim(Trim(s, sp), sp) == Trim(s, sp)
  {
    TrimNoop(Trim(s, sp), sp);
  }

  /** The trimmed string is empty exactly when every character is a space. */
  lemma TrimEmptyIff(s: string, sp: char -> bool)
    ensures Trim(s, sp) == [] <==> forall i :: 0 <= i < |s| ==> sp(s[i])
  {
    var t := TrimLeft(s, sp);
    if t != [] {
      assert !sp(t[0]);
    }
  }

  lemma TrimLeftLower(s: string, sp: char -> bool)
    requires forall c :: sp(c) <==> sp(LowerChar(c))
    ensures TrimLeft(Lower(s), sp) == Lower(TrimLeft(s, sp))
  {
    if |s| > 0 {
      assert Lower(s)[1..] == Lower(s[1..]);
      if sp(s[0]) {
        TrimLeftLower(s[1..], sp);
      }
    }
  }

  lemma TrimRightLower(s: string, sp: char -> bool)
    requires forall c :: sp(c) <==> sp(LowerChar(c))
    ensures TrimRight(Lower(s), sp) == Lower(TrimRight(s, sp))
  {
    if |s| > 0 {
      assert Lower(s)[..|s| - 1] == Lower(s[..|s| - 1]);
      if sp(s[|s| - 1]) {
        TrimRightLower(s[..|s| - 1], sp);
      }
    }
  }

  lemma PySpaceLowerInvariant()
    ensures forall c :: IsPySpace(c) <==> IsPySpace(LowerChar(c))
  {
  }

  /** Stripping and lowering commute (lowering never creates or removes
      whitespace). */
  lemma StripLower(s: string)
    ensures Strip(Lower(s)) == Lower(Strip(s))
  {
    PySpaceLowerInvariant();
    TrimLeftLower(s, IsPySpace);
    TrimRightLower(TrimLeft(s, IsPySpace), IsPySpace);
  }

  // ---------------------------------------------------------------------
  // Python `split()` and `" ".join`
  // ---------------------------------------------------------------------

  predicate NoPySpace(w: string) {
    forall i :: 0 <= i < |w| ==> !IsPySpace(w[i])
  }

  /** The longest prefix of `t` without Python whitespace. */
  function Token(t: string): (w: string)
    ensures |w| <= |t| && w == t[..|w|]
    ensures NoPySpace(w)
    ensures |w| < |t| ==> IsPySpace(t[|w|])
    ensures t != [] && !IsPySpace(t[0]) ==> w != []
  {
    if t == [] || IsPySpace(t[0]) then [] else [t[0]] + Token(t[1..])
  }

  /** Python's `str.split()` with no argument: the maximal runs of
      non-whitespace characters, in order. */
  function Words(s: string): (ws: seq<string>)
    decreases |s|
  {
    var t := TrimLeft(s, IsPySpace);
    if t == [] then []
    else
      var w := Token(t);
      [w] + Words(t[|w|..])
  }

  /** `" ".join(ws)`. */
  function JoinSpace(ws: seq<string>): string
  {
    if ws == [] then "" else if |ws| == 1 then ws[0] else ws[0] + " " + JoinSpace(ws[1..])
  }

  predicate GoodWord(w: string) { w != [] && NoPySpace(w) }

  lemma {:induction false} WordsAreGood(s: string)
    ensures forall k :: 0 <= k < |Words(s)| ==> GoodWord(Words(s)[k])
    decreases |s|
  {
    var t := TrimLeft(s, IsPySpace);
    if t != [] {
      var w := Token(t);
      var rest := t[|w|..];
      WordsAreGood(rest);
      assert GoodWord(w);
      AllCons(w, Words(rest), GoodWord);
    }
  }

  lemma {:induction false} WordsOfLowered(s: string)
    requires IsLowered(s)
    ensures forall k :: 0 <= k < |Words(s)| ==> IsLowered(Words(s)[k])
    decreases |s|
  {
    var t := TrimLeft(s, IsPySpace);
    if t != [] {
      var w := Token(t);
      var rest := t[|w|..];
      LoweredSuffix(s, |s| - |t|);
      LoweredSuffix(t, |w|);
      LoweredPrefix(t, |w|);
      WordsOfLowered(rest);
      assert Words(s) == [w] + Words(rest);
      AllCons(w, Words(rest), IsLowered);
    }
  }

  lemma LoweredSuffix(s: string, n: nat)
    requires IsLowered(s) && n <= |s|
    ensures IsLowered(s[n..])
  {
    forall i | 0 <= i < |s| - n ensures !IsAsciiUpper(s[n..][i]) {
      assert s[n..][i] == s[n + i];
    }
  }

  lemma LoweredPrefix(s: string, n: nat)
    requires IsLowered(s) && n <= |s|
    ensures IsLowered(s[..n])
  {
    forall i | 0 <= i < n ensures !IsAsciiUpper(s[..n][i]) {
      assert s[..n][i] == s[i];
    }
  }

  lemma WordsSpacePrefix(c: char, x: string)
    requires IsPySpace(c)
    ensures Words([c] + x) == Words(x)
  {
    assert ([c] + x)[1..] == x;
  }

  lemma {:induction false} WordsOfJoin(ws: seq<string>)
    requires forall k :: 0 <= k < |ws| ==> GoodWord(ws[k])
    ensures Words(JoinSpace(ws)) == ws
    decreases |ws|
  {
    if ws == [] {
    } else if |ws| == 1 {
      var w := ws[0];
      TrimLeftNoop(w, IsPySpace);
      TokenOfWord(w, "");
      assert w + "" == w;
      assert w[|w|..] == [];
    } else {
      WordsOfWordSpace(ws[0], JoinSpace(ws[1..]));
      WordsOfJoin(ws[1..]);
      ConsSplit(ws);
    }
  }

  lemma WordsOfWordSpace(w: string, rest: string)
    requires GoodWord(w)
    ensures Words(w + " " + rest) == [w] + Words(rest)
  {
    var j := w + " " + rest;
    TrimLeftNoop(j, IsPySpace);
    TokenOfWord(w, " " + rest);
    assert j == w + (" " + rest);
    assert j[|w|..] == [' '] + rest;
    WordsSpacePrefix(' ', rest);
  }

  lemma {:induction false} TokenOfWord(w: string, tail: string)
    requires NoPySpace(w)
    requires tail == [] || IsPySpace(tail[0])
    ensures Token(w + tail) == w
    decreases |w|
  {
    if w != [] {
      assert (w + tail)[1..] == w[1..] + tail;
      TokenOfWord(w[1..], tail);
    }
  }

  /** The shape of a canonical name: lowered, the only whitespace is the
      single space between words, none at either end and never two in a row. */
  predicate IsCanonicalText(r: string) {
    && IsLowered(r)
    && (forall i :: 0 <= i < |r| && IsPySpace(r[i]) ==> r[i] == ' ')
    && (r != [] ==> r[0] != ' ' && r[|r| - 1] != ' ')
    && (forall i :: 0 <= i < |r| - 1 ==> !(r[i] == ' ' && r[i + 1] == ' '))
  }

  lemma {:induction false} JoinIsCanonical(ws: seq<string>)
    requires forall k :: 0 <= k < |ws| ==> GoodWord(ws[k]) && IsLowered(ws[k])
    ensures IsCanonicalText(JoinSpace(ws))
    decreases |ws|
  {
    if |ws| > 1 {
      JoinIsCanonical(ws[1..]);
      var w, rest := ws[0], JoinSpace(ws[1..]);
      var j := w + " " + rest;
      assert rest != [] by { assert ws[1..][0] == ws[1]; JoinHead(ws[1..]); }
      forall i | 0 <= i < |j| - 1
        ensures !(j[i] == ' ' && j[i + 1] == ' ')
      {
        if i < |w| - 1 {
          assert j[i] == w[i];
        } else if i == |w| - 1 {
          assert j[i + 1] == ' ' && j[i] == w[i];
        } else if i == |w| {
          assert j[i + 1] == rest[0];
        } else {
          assert j[i] == rest[i - |w| - 1] && j[i + 1] == rest[i - |w|];
        }
      }
    }
  }

  lemma JoinHead(ws: seq<string>)
    requires ws != [] && ws[0] != []
    ensures JoinSpace(ws) != [] && JoinSpace(ws)[0] == ws[0][0]
  {
  }

  // ---------------------------------------------------------------------
  // Substrings and prefixes
  // ---------------------------------------------------------------------

  predicate StartsWith(s: string, p: string) {
    |p| <= |s| && s[..|p|] == p
  }

  /** Python's `kw in text` / JavaScript's `text.includes(kw)`. */
  predicate Contains(text: string, kw: string)
    decreases |text|
  {
    StartsWith(text, kw) || (text != [] && Contains(text[1..], kw))
  }

  predicate OccursAt(text: string, kw: string, i: int) {
    0 <= i <= |text| - |kw| && text[i..i + |kw|] == kw
  }

  lemma {:induction false} ContainsIff(text: string, kw: string)
    ensures Contains(text, kw) <==> exists i :: OccursAt(text, kw, i)
    decreases |text|
  {
    if text != [] {
      ContainsIff(text[1..], kw);
      if exists i :: OccursAt(text, kw, i) {
        var i :| OccursAt(text, kw, i);
        if i > 0 {
          assert OccursAt(text[1..], kw, i - 1);
        }
      }
      if Contains(text[1..], kw) {
        var i :| OccursAt(text[1..], kw, i);
        assert text[1..][i..i + |kw|] == text[i + 1..i + 1 + |kw|];
        assert OccursAt(text, kw, i + 1);
      }
    }
    if StartsWith(text, kw) {
      assert OccursAt(text, kw, 0);
    }
  }

  /** A keyword occurring in a part of a string occurs in the whole. */
  lemma ContainsInfix(a: string, b: string, c: string, kw: string)
    requires Contains(b, kw)
    ensures Contains(a + b + c, kw)
  {
    ContainsIff(b, kw);
    ContainsIff(a + b + c, kw);
    var i :| OccursAt(b, kw, i);
    assert OccursAt(a + b + c, kw, |a| + i);
  }

  predicate AnyContains(text: string, kws: seq<string>) {
    exists k :: 0 <= k < |kws| && Contains(text, kws[k])
  }

  /** Python's `str.replace(old, new)`: non-overlapping occurrences, left to right. */
  function Replace(s: string, pat: string, sub: string): (r: string)
    requires pat != []
    decreases |s|
  {
    if s == [] then []
    else if StartsWith(s, pat) then sub + Replace(s[|pat|..], pat, sub)
    else [s[0]] + Replace(s[1..], pat, sub)
  }

  /** Removing every occurrence of a one-character string. */
  function RemoveChar(s: string, c: char): (r: string)
    ensures forall i :: 0 <= i < |r| ==> r[i] != c
    ensures forall x :: x in r <==> x in s && x != c
  {
    if s == [] then [] else (if s[0] == c then [] else [s[0]]) + RemoveChar(s[1..], c)
  }

  lemma ReplaceOneChar(s: string, c: char)
    ensures Replace(s, [c], "") == RemoveChar(s, c)
  {
  }

  // ---------------------------------------------------------------------
  // split(sep) with a one-character separator (Python and JavaScript agree)
  // ---------------------------------------------------------------------

  /** The text before the first `sep`, or all of `s`. */
  function BeforeSep(s: string, sep: char): (r: string)
    ensures |r| <= |s| && r == s[..|r|]
    ensures sep !in r
    ensures |r| < |s| ==> s[|r|] == sep
  {
    if s == [] || s[0] == sep then [] else [s[0]] + BeforeSep(s[1..], sep)
  }

  /** `s.split(sep)`: the pieces between separators; never empty. */
  function SplitOn(s: string, sep: char): (parts: seq<string>)
    ensures |parts| >= 1
    ensures parts[0] == BeforeSep(s, sep)
    ensures forall k :: 0 <= k < |parts| ==> sep !in parts[k]
    decreases |s|
  {
    var head := BeforeSep(s, sep);
    if |head| == |s| then [s] else [head] + SplitOn(s[|head| + 1..], sep)
  }

  lemma SplitOnHasSep(s: string, sep: char)
    ensures |SplitOn(s, sep)| >= 2 <==> sep in s
  {
    var head := BeforeSep(s, sep);
    if |head| < |s| {
      assert s[|head|] == sep;
    }
  }

  // ---------------------------------------------------------------------
  // str.title()
  // ---------------------------------------------------------------------

  /** Python's `str.title()` over ASCII: a letter after a letter is lowered,
      any other letter is raised. */
  function TitleFrom(s: string, afterLetter: bool): (r: string)
    ensures |r| == |s|
  {
    if s == [] then []
    else
      var c := if afterLetter then LowerChar(s[0]) else UpperChar(s[0]);
      [c] + TitleFrom(s[1..], IsAsciiLetter(s[0]))
  }

  function Title(s: string): (r: string)
    ensures |r| == |s|
  {
    TitleFrom(s, false)
  }

  /** Title-case as Python writes a single word: an upper-case initial then lower-case letters. */
  predicate IsTitleWord(t: string) {
    t != [] && IsAsciiUpper(t[0]) && forall i :: 1 <= i < |t| ==> IsAsciiLower(t[i])
  }

  lemma {:induction false} TitleFromLetters(s: string, t: string, afterLetter: bool)
    requires |s| == |t|
    requires forall i :: 0 <= i < |t| ==> IsAsciiLetter(t[i])
    requires forall i :: 1 <= i < |t| ==> IsAsciiLower(t[i])
    requires t != [] ==> (if afterLetter then IsAsciiLower(t[0]) else IsAsciiUpper(t[0]))
    ensures TitleFrom(s, afterLetter) == t <==> Lower(s) == Lower(t)
    decreases |s|
  {
    if s != [] {
      TitleFromLetters(s[1..], t[1..], true);
      var c := if afterLetter then LowerChar(s[0]) else UpperChar(s[0]);
      assert TitleFrom(s, afterLetter) == [c] + TitleFrom(s[1..], IsAsciiLetter(s[0]));
      if Lower(s) == Lower(t) {
        assert LowerChar(s[0]) == LowerChar(t[0]);
        assert IsAsciiLetter(s[0]);
        assert Lower(s[1..]) == Lower(s)[1..] == Lower(t)[1..] == Lower(t[1..]);
      }
      if TitleFrom(s, afterLetter) == t {
        assert c == t[0];
        assert IsAsciiLetter(s[0]);
        assert LowerChar(s[0]) == LowerChar(t[0]);
        assert TitleFrom(s[1..], true) == t[1..];
        assert Lower(s) == [LowerChar(s[0])] + Lower(s[1..]);
        assert Lower(t) == [LowerChar(t[0])] + Lower(t[1..]);
      }
    }
  }

  /** `s.title() == t` for a title-cased word `t` is exactly a
      case-insensitive comparison. */
  lemma TitleMatchesIgnoringCase(s: string, t: string)
    requires IsTitleWord(t)
    ensures Title(s) == t <==> Lower(s) == Lower(t)
  {
    if |s| == |t| {
      TitleFromLetters(s, t, false);
    }
  }

  // ---------------------------------------------------------------------
  // Decimal digits
  // ---------------------------------------------------------------------

  predicate AllDigits(s: string) {
    forall i :: 0 <= i < |s| ==> IsDigit(s[i])
  }

  function DigitValue(c: char): nat
    requires IsDigit(c)
  {
    c as int - '0' as int
  }

  /** The value of a non-empty run of decimal digits. */
  function DigitsValue(s: string): nat
    requires AllDigits(s)
    decreases |s|
  {
    if s == [] then 0 else 10 * DigitsValue(s[..|s| - 1]) + DigitValue(s[|s| - 1])
  }

  /** The value of digits written after a decimal point, `0.d1d2...`. */
  function FractionValue(s: string): (r: real)
    requires AllDigits(s)
    ensures 0.0 <= r < 1.0
    decreases |s|
  {
    if s == [] then 0.0
    else
      assert AllDigits(s[1..]) by {
        forall i | 0 <= i < |s| - 1 ensures IsDigit(s[1..][i]) {
          assert s[1..][i] == s[i + 1];
        }
      }
      (DigitValue(s[0]) as real + FractionValue(s[1..])) / 10.0
  }

  function DigitChar(d: nat): (c: char)
    requires d < 10
    ensures IsDigit(c) && DigitValue(c) == d
  {
    ('0' as int + d) as char
  }

  /** Decimal rendering of a natural number, as Python's `str(n)` and JavaScript's `String(n)` write it. */
  function NatToString(n: nat): (r: string)
    ensures r != [] && AllDigits(r)
    ensures DigitsValue(r) == n
    ensures |r| > 1 ==> r[0] != '0'
    decreases n
  {
    if n < 10 then [DigitChar(n)]
    else
      var r := NatToString(n / 10) + [DigitChar(n % 10)];
      assert r[..|r| - 1] == NatToString(n / 10);
      r
  }

  /** Python's `f"{n:02d}"` for a non-negative `n`: zero-padded to width two. */
  function Pad2(n: nat): (r: string)
    ensures |r| >= 2 && AllDigits(r) && DigitsValue(r) == n
  {
    if n < 10 then
      var r := "0" + [DigitChar(n)];
      assert r[..1] == "0" && DigitsValue("0") == 0;
      r
    else NatToString(n)
  }
}
