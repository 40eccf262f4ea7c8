/**
 Title-casing as a single left-to-right pass carrying an in-match flag, and the proof that
 this two-state machine computes exactly the global regular-expression replacement.

 Outside a match, a word character is upper-cased and opens a match; anything else is
 copied. Inside a match, a non-whitespace character is lower-cased; whitespace is copied
 and closes the match.
 */
module TitleScan {
  import opened Ascii
  import TitleCase

  /**
   The in-match flag after reading c: a word character opens a match, whitespace closes one,
   and any other character leaves the flag as it was.
   */
  function Step(inMatch: bool, c: char): (next: bool)
    ensures IsWhitespace(c) ==> !next
    ensures IsWordChar(c) ==> next
    ensures !IsWhitespace(c) && !IsWordChar(c) ==> next == inMatch
  {
    if inMatch then !IsWhitespace(c) else IsWordChar(c)
  }

  /** The character written for c in the given state. */
  function Emit(inMatch: bool, c: char): (r: char)
    ensures IsWordChar(r) == IsWordChar(c)
    ensures IsWhitespace(r) == IsWhitespace(c)
    ensures IsWhitespace(c) ==> r == c
  {
    if inMatch then
      (if IsWhitespace(c) then c else ToLower(c))
    else
      (if IsWordChar(c) then ToUpper(c) else c)
  }

  /** Writing a character twice in the same state changes nothing more. */
  lemma EmitIdempotent(inMatch: bool, c: char)
    ensures Emit(inMatch, Emit(inMatch, c)) == Emit(inMatch, c)
  {
  }

  /**
   The scan of s[i..] started in the given state. It keeps the length and every character's
   `\w`/`\s` class, and copies whitespace; ScanAt gives each position's content.
   */
  function ScanFrom(s: string, i: nat, inMatch: bool): (r: string)
    requires i <= |s|
    ensures |r| == |s| - i
    ensures forall k :: i <= k < |s| ==> IsWordChar(r[k - i]) == IsWordChar(s[k])
    ensures forall k :: i <= k < |s| ==> IsWhitespace(r[k - i]) == IsWhitespace(s[k])
    ensures forall k :: i <= k < |s| && IsWhitespace(s[k]) ==> r[k - i] == s[k]
    decreases |s| - i
  {
    if i == |s| then "" else [Emit(inMatch, s[i])] + ScanFrom(s, i + 1, Step(inMatch, s[i]))
  }

  /** The scan of a whole string, starting outside any match. */
  function Scan(s: string): (r: string)
    ensures |r| == |s|
    ensures forall k :: 0 <= k < |s| ==> IsWordChar(r[k]) == IsWordChar(s[k])
    ensures forall k :: 0 <= k < |s| && IsWhitespace(s[k]) ==> r[k] == s[k]
    ensures |s| > 0 && IsWordChar(s[0]) ==> r[0] == ToUpper(s[0])
  {
    ScanFrom(s, 0, false)
  }

  /**
   Inside a match the scanner lower-cases up to the match's end (the next whitespace),
   then carries on outside a match: exactly the tail of the callback followed by the
   resumed search.
   */
  lemma {:induction false} ScanInsideMatch(s: string, j: nat)
    requires j <= |s|
    ensures ScanFrom(s, j, true)
         == StrLower(s[j..TitleCase.MatchEnd(s, j)]) + ScanFrom(s, TitleCase.MatchEnd(s, j), false)
    decreases |s| - j
  {
    var e := TitleCase.MatchEnd(s, j);
    if j == |s| {
    } else if IsWhitespace(s[j]) {
      assert e == j;
    } else {
      assert e == TitleCase.MatchEnd(s, j + 1);
      ScanInsideMatch(s, j + 1);
      assert s[j..e] == [s[j]] + s[j + 1..e];
      assert StrLower(s[j..e]) == [ToLower(s[j])] + StrLower(s[j + 1..e]);
    }
  }

  /** The callback on a match s[i..e] upper-cases its first character and lower-cases the rest. */
  lemma CapitalizeSlice(s: string, i: nat, e: nat)
    requires i < e <= |s|
    ensures TitleCase.Capitalize(s[i..e]) == [ToUpper(s[i])] + StrLower(s[i + 1..e])
  {
    assert s[i..e][..1] == [s[i]];
    assert s[i..e][1..] == s[i + 1..e];
  }

  /** The replacement from position i equals the scan from i started outside a match. */
  lemma {:induction false} ReplaceWordsIsScan(s: string, i: nat)
    requires i <= |s|
    ensures TitleCase.ReplaceWords(s, i) == ScanFrom(s, i, false)
    decreases |s| - i
  {
    if i == |s| {
    } else if IsWordChar(s[i]) {
      var e := TitleCase.MatchEnd(s, i + 1);
      assert TitleCase.MatchEnd(s, i) == e;
      calc {
        TitleCase.ReplaceWords(s, i);
        TitleCase.Capitalize(s[i..e]) + TitleCase.ReplaceWords(s, e);
        { CapitalizeSlice(s, i, e); ReplaceWordsIsScan(s, e); }
        [ToUpper(s[i])] + StrLower(s[i + 1..e]) + ScanFrom(s, e, false);
        { ScanInsideMatch(s, i + 1); }
        [Emit(false, s[i])] + ScanFrom(s, i + 1, true);
        ScanFrom(s, i, false);
      }
    } else {
      ReplaceWordsIsScan(s, i + 1);
    }
  }

  /** `toTitleCase` on a string is the two-state scan. */
  lemma TitleTextIsScan(s: string)
    ensures TitleCase.TitleText(s) == Scan(s)
  {
    ReplaceWordsIsScan(s, 0);
  }
}
