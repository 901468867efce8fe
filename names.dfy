/** The canonical place / outlet name used as a de-duplication key:
    `" ".join(str(name).strip().lower().split())`. The same definition is
    written twice in the repository, in `services/agents.py` and in
    `services/final_route_architect.py`; both are this one function. */
module Names {
  import opened Text

  function Canonical(name: string): string {
    JoinSpace(Words(Lower(Strip(name))))
  }

  lemma WordsOfCanonicalInput(name: string)
    ensures forall k :: 0 <= k < |Words(Lower(Strip(name)))| ==>
      GoodWord(Words(Lower(Strip(name)))[k]) && IsLowered(Words(Lower(Strip(name)))[k])
  {
    var x := Lower(Strip(name));
    LowerIdempotent(Strip(name));
    WordsAreGood(x);
    WordsOfLowered(x);
  }

  /** A canonical name is lower-case, has no whitespace at either end, and
      separates its words by exactly one space. */
  lemma CanonicalShape(name: string)
    ensures IsCanonicalText(Canonical(name))
  {
    WordsOfCanonicalInput(name);
    JoinIsCanonical(Words(Lower(Strip(name))));
  }

  /** Canonicalising twice is canonicalising once. */
  lemma CanonicalIdempotent(name: string)
    ensures Canonical(Canonical(name)) == Canonical(name)
  {
    var ws := Words(Lower(Strip(name)));
    var c := JoinSpace(ws);
    WordsOfCanonicalInput(name);
    CanonicalShape(name);
    TrimNoop(c, IsPySpace);
    assert Strip(c) == c;
    LowerOfLowered(c);
    WordsOfJoin(ws);
  }

  /** Names that differ only in ASCII letter case canonicalise equally. */
  lemma CanonicalIgnoresCase(name: string)
    ensures Canonical(Lower(name)) == Canonical(name)
  {
    StripLower(name);
    LowerIdempotent(Strip(name));
  }

  /** Surrounding whitespace does not change the canonical name. */
  lemma CanonicalIgnoresStrip(name: string)
    ensures Canonical(Strip(name)) == Canonical(name)
  {
    TrimIdempotent(name, IsPySpace);
  }

  lemma {:induction false} WordsEmptyIff(s: string)
    ensures Words(s) == [] <==> forall i :: 0 <= i < |s| ==> IsPySpace(s[i])
  {
    var t := TrimLeft(s, IsPySpace);
    if t != [] {
      assert !IsPySpace(s[|s| - |t|]);
    }
  }

  /** The canonical name is empty exactly when the name is blank. */
  lemma CanonicalEmptyIff(name: string)
    ensures Canonical(name) == [] <==> Strip(name) == []
  {
    var x := Lower(Strip(name));
    WordsOfCanonicalInput(name);
    WordsEmptyIff(x);
    TrimEmptyIff(name, IsPySpace);
    TrimEmptyIff(Strip(name), IsPySpace);
    PySpaceLowerInvariant();
    var ws := Words(x);
    if ws != [] {
      JoinHead(ws);
    }
    if Strip(name) != [] {
      assert !IsPySpace(Strip(name)[0]);
      assert !IsPySpace(x[0]);
    }
  }
}
