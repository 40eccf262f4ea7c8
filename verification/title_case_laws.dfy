/**
 Laws of title-casing, stated against a positional reference definition that reads the
 regular expression `\w\S*` directly: a character lies inside a match, past its first
 character, exactly when some word character precedes it with no whitespace in between.
 */
module TitleCaseLaws {
  import opened Ascii
  import opened TitleCase
  import opened TitleScan

  /** The scanner's in-match flag after reading s[..i]. */
  function InMatchAt(s: string, i: nat): bool
    requires i <= |s|
  {
    if i == 0 then false else Step(InMatchAt(s, i - 1), s[i - 1])
  }

  /** s[lo..hi] holds no whitespace. */
  ghost predicate NoWhitespaceIn(s: string, lo: nat, hi: nat)
    requires lo <= hi <= |s|
  {
    forall m :: lo <= m < hi ==> !IsWhitespace(s[m])
  }

  /** s[lo..hi] holds no word character. */
  ghost predicate NoWordIn(s: string, lo: nat, hi: nat)
    requires lo <= hi <= |s|
  {
    forall m :: lo <= m < hi ==> !IsWordChar(s[m])
  }

  /** A match of `\w\S*` began strictly before i and has not been closed by whitespace. */
  ghost predicate WordBefore(s: string, i: nat)
    requires i <= |s|
  {
    exists k :: 0 <= k < i && IsWordChar(s[k]) && NoWhitespaceIn(s, k, i)
  }

  /**
   The reference behaviour at position i: whitespace is kept; a character after the first
   word character of its whitespace-free run is lower-cased; the first word character of a
   run is upper-cased; characters of a run before its first word character are kept.
   */
  ghost function Expected(s: string, i: nat): char
    requires i < |s|
  {
    if IsWhitespace(s[i]) then s[i]
    else if WordBefore(s, i) then ToLower(s[i])
    else if IsWordChar(s[i]) then ToUpper(s[i])
    else s[i]
  }

  /** The scanner's flag agrees with the regular-expression reading. */
  lemma {:induction false} InMatchIffWordBefore(s: string, i: nat)
    requires i <= |s|
    ensures InMatchAt(s, i) <==> WordBefore(s, i)
  {
    if i > 0 {
      InMatchIffWordBefore(s, i - 1);
      var c := s[i - 1];
      if IsWhitespace(c) {
        forall k | 0 <= k < i
          ensures !NoWhitespaceIn(s, k, i)
        {
          assert IsWhitespace(s[i - 1]);
        }
      } else if WordBefore(s, i - 1) {
        var k :| 0 <= k < i - 1 && IsWordChar(s[k]) && NoWhitespaceIn(s, k, i - 1);
        assert NoWhitespaceIn(s, k, i);
      } else if IsWordChar(c) {
        assert NoWhitespaceIn(s, i - 1, i);
      } else {
        forall k | 0 <= k < i - 1 && NoWhitespaceIn(s, k, i)
          ensures NoWhitespaceIn(s, k, i - 1)
        {
        }
      }
    }
  }

  /** The scan started in the right state writes Emit(flag, s[j]) at every later position j. */
  lemma {:induction false} ScanAt(s: string, i: nat, j: nat)
    requires i <= j < |s|
    ensures ScanFrom(s, i, InMatchAt(s, i))[j - i] == Emit(InMatchAt(s, j), s[j])
    decreases j - i
  {
    if i < j {
      assert InMatchAt(s, i + 1) == Step(InMatchAt(s, i), s[i]);
      ScanAt(s, i + 1, j);
    }
  }

  /** Title-casing writes at each position what the scanner's flag dictates. */
  lemma TitleTextByFlag(s: string, i: nat)
    requires i < |s|
    ensures TitleText(s)[i] == Emit(InMatchAt(s, i), s[i])
  {
    TitleTextIsScan(s);
    ScanAt(s, 0, i);
  }

  /** Title-casing agrees with the positional reference at every position. */
  lemma TitleTextMatchesReference(s: string)
    ensures |TitleText(s)| == |s|
    ensures forall i :: 0 <= i < |s| ==> TitleText(s)[i] == Expected(s, i)
  {
    forall i | 0 <= i < |s|
      ensures TitleText(s)[i] == Expected(s, i)
    {
      TitleTextByFlag(s, i);
      InMatchIffWordBefore(s, i);
    }
  }

  /** Whitespace stays where it is, and no character becomes or stops being whitespace. */
  lemma WhitespacePreserved(s: string, i: nat)
    requires i < |s|
    ensures IsWhitespace(TitleText(s)[i]) <==> IsWhitespace(s[i])
    ensures IsWordChar(TitleText(s)[i]) <==> IsWordChar(s[i])
    ensures IsWhitespace(s[i]) ==> TitleText(s)[i] == s[i]
  {
    TitleTextByFlag(s, i);
  }

  /**
   In a whitespace-free run starting at a, a character k with no word character before it
   in the run is upper-cased if it is a word character (the first one of the run) and kept
   otherwise.
   */
  lemma RunHead(s: string, a: nat, k: nat)
    requires a <= k < |s|
    requires a == 0 || IsWhitespace(s[a - 1])
    requires NoWhitespaceIn(s, a, k + 1)
    requires NoWordIn(s, a, k)
    ensures TitleText(s)[k] == (if IsWordChar(s[k]) then ToUpper(s[k]) else s[k])
  {
    TitleTextMatchesReference(s);
    forall w | 0 <= w < a
      ensures !NoWhitespaceIn(s, w, k)
    {
      assert IsWhitespace(s[a - 1]);
    }
  }

  /** Every character after a word character f, within the same whitespace-free run, is lower-cased. */
  lemma RunTail(s: string, f: nat, k: nat)
    requires f < k < |s|
    requires IsWordChar(s[f])
    requires NoWhitespaceIn(s, f, k + 1)
    ensures TitleText(s)[k] == ToLower(s[k])
  {
    TitleTextMatchesReference(s);
    assert NoWhitespaceIn(s, f, k);
    assert WordBefore(s, k);
  }

  /** A string with no word character (empty, blank, punctuation only) is returned unchanged. */
  lemma NoWordUnchanged(s: string)
    requires NoWordIn(s, 0, |s|)
    ensures TitleText(s) == s
  {
    TitleTextMatchesReference(s);
    forall i | 0 <= i < |s|
      ensures TitleText(s)[i] == s[i]
    {
    }
  }

  /** Title-casing keeps every character's class, so the flags over s and its title-casing agree. */
  lemma {:induction false} SameFlags(s: string, i: nat)
    requires i <= |s|
    ensures InMatchAt(TitleText(s), i) == InMatchAt(s, i)
  {
    if i > 0 {
      SameFlags(s, i - 1);
      WhitespacePreserved(s, i - 1);
    }
  }

  /** Title-casing is idempotent. */
  lemma Idempotent(s: string)
    ensures TitleText(TitleText(s)) == TitleText(s)
  {
    var t := TitleText(s);
    forall i | 0 <= i < |s|
      ensures TitleText(t)[i] == t[i]
    {
      TitleTextByFlag(s, i);
      TitleTextByFlag(t, i);
      SameFlags(s, i);
      EmitIdempotent(InMatchAt(s, i), s[i]);
    }
  }

  /** A single whitespace-free token that starts with a word character is capitalised as a whole. */
  lemma SingleToken(s: string)
    requires 0 < |s|
    requires IsWordChar(s[0])
    requires NoWhitespaceIn(s, 0, |s|)
    ensures TitleText(s) == [ToUpper(s[0])] + StrLower(s[1..])
  {
    assert MatchEnd(s, 1) == |s|;
    assert s[0..|s|] == s;
  }
}
