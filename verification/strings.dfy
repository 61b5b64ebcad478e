/** String helpers with Python semantics: `str.replace(old, "")`. Prefix tests use
    Dafny's sequence prefix relation `w <= s` directly. */
module Strings {

  /** `pat` occurs somewhere inside `s`: it is a prefix of `s` or of some suffix of it. */
  predicate Occurs(s: string, pat: string)
    decreases |s|
  {
    pat <= s || (|s| > 0 && Occurs(s[1..], pat))
  }

  /** Python's `s.replace(pat, "")` for a non-empty `pat`: scanning from the left, every
      non-overlapping occurrence of `pat` is deleted; after a deletion the scan resumes
      just past the deleted text, so deletions never create a new match that is re-examined
      to the left of the scan point. */
  function ReplaceAll(s: string, pat: string): (r: string)
    requires |pat| > 0
    ensures |r| <= |s|
    ensures !Occurs(s, pat) ==> r == s
    ensures Occurs(s, pat) ==> |r| < |s|
    decreases |s|
  {
    if |s| == 0 then
      []
    else if pat <= s then
      ReplaceAll(s[|pat|..], pat)
    else
      [s[0]] + ReplaceAll(s[1..], pat)
  }

  /** A leading occurrence is deleted and the scan carries on with what follows it. */
  lemma {:induction false} ReplaceAllLeading(pat: string, t: string)
    requires |pat| > 0
    ensures ReplaceAll(pat + t, pat) == ReplaceAll(t, pat)
  {
    assert pat <= pat + t;
    assert (pat + t)[|pat|..] == t;
  }

  /** Deleting a pattern from the front of a string that holds no other occurrence of it
      is exactly prefix stripping. */
  lemma {:induction false} ReplaceAllIsPrefixStrip(pat: string, t: string)
    requires |pat| > 0
    requires !Occurs(t, pat)
    ensures ReplaceAll(pat + t, pat) == t
  {
    ReplaceAllLeading(pat, t);
  }

  /** The converse: when `t` holds the pattern again, deleting from `pat + t` also removes
      text from `t`, so the result is not `t`. */
  lemma {:induction false} ReplaceAllNotPrefixStripWhenRepeated(pat: string, t: string)
    requires |pat| > 0
    requires Occurs(t, pat)
    ensures ReplaceAll(pat + t, pat) != t
  {
    ReplaceAllLeading(pat, t);
    assert |ReplaceAll(t, pat)| < |t|;
  }

  /** Both directions together: deleting a leading pattern equals prefix stripping exactly
      when the rest holds no further occurrence. */
  lemma ReplaceAllIsPrefixStripIff(pat: string, t: string)
    requires |pat| > 0
    ensures ReplaceAll(pat + t, pat) == t <==> !Occurs(t, pat)
  {
    if Occurs(t, pat) {
      ReplaceAllNotPrefixStripWhenRepeated(pat, t);
    } else {
      ReplaceAllIsPrefixStrip(pat, t);
    }
  }

  /** A string shorter than the pattern cannot contain it. */
  lemma {:induction false} ShorterHasNoOccurrence(s: string, pat: string)
    requires |s| < |pat|
    ensures !Occurs(s, pat)
  {
    if |s| > 0 {
      ShorterHasNoOccurrence(s[1..], pat);
    }
  }

  /** A string without the pattern's first character cannot contain the pattern. */
  lemma {:induction false} NoOccurrenceWithoutFirstChar(s: string, pat: string)
    requires |pat| > 0 && pat[0] !in s
    ensures !Occurs(s, pat)
    decreases |s|
  {
    if |s| > 0 {
      assert s[0] != pat[0];
      assert forall i :: 0 <= i < |s[1..]| ==> s[1..][i] == s[i + 1];
      NoOccurrenceWithoutFirstChar(s[1..], pat);
    }
  }

  /** Where no occurrence starts at the head, the head character is kept. */
  lemma {:induction false} ReplaceAllKeepsHead(c: char, t: string, pat: string)
    requires |pat| > 0
    requires !(pat <= [c] + t)
    ensures ReplaceAll([c] + t, pat) == [c] + ReplaceAll(t, pat)
  {
    assert ([c] + t)[1..] == t;
  }

  /** A deletion can splice together a new occurrence that the left-to-right scan has
      already passed: "gaugauge.ge." loses its one "gauge." and becomes "gauge.". */
  lemma {:induction false} ReplaceAllCanLeaveOccurrence(pat: string, tail: string)
    requires pat == "gauge." && tail == "ge."
    ensures ReplaceAll("gau" + pat + tail, pat) == pat
  {
    ShorterHasNoOccurrence(tail, pat);
    ReplaceAllIsPrefixStrip(pat, tail);
    assert (['u'] + (pat + tail))[0] != pat[0];
    ReplaceAllKeepsHead('u', pat + tail, pat);
    assert (['a'] + ("u" + pat + tail))[0] != pat[0];
    ReplaceAllKeepsHead('a', "u" + pat + tail, pat);
    assert (['g'] + ("au" + pat + tail))[4] != pat[4];
    ReplaceAllKeepsHead('g', "au" + pat + tail, pat);
    assert "u" + pat + tail == ['u'] + (pat + tail);
    assert "au" + pat + tail == ['a'] + ("u" + pat + tail);
    assert "gau" + pat + tail == ['g'] + ("au" + pat + tail);
    assert ['g'] + (['a'] + (['u'] + tail)) == pat;
  }
}
