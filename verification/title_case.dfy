/**
 The notification formatter's `toTitleCase`, modelled literally: a global replacement of
 every match of the regular expression `\w\S*` by the callback's result, where the callback
 upper-cases the first character of the matched text and lower-cases the rest.
 */
module TitleCase {
  import opened Wrappers
  import opened Ascii

  /**
   Where a match of `\w\S*` that has consumed s[..j] stops: `\S*` is greedy, so the match
   runs to the first whitespace at or after j, or to the end of the string.
   */
  function MatchEnd(s: string, j: nat): (e: nat)
    requires j <= |s|
    ensures j <= e <= |s|
    ensures forall k :: j <= k < e ==> !IsWhitespace(s[k])
    ensures e == |s| || IsWhitespace(s[e])
    decreases |s| - j
  {
    if j == |s| || IsWhitespace(s[j]) then j else MatchEnd(s, j + 1)
  }

  /**
   The replacement callback `text.charAt(0).toUpperCase() + text.substring(1).toLowerCase()`.
   On the empty string `charAt(0)` and `substring(1)` are both empty.
   */
  function Capitalize(text: string): (r: string)
    ensures |r| == |text|
    ensures |text| > 0 ==> r[0] == ToUpper(text[0])
    ensures forall k :: 1 <= k < |text| ==> r[k] == ToLower(text[k])
  {
    if |text| == 0 then "" else StrUpper(text[..1]) + StrLower(text[1..])
  }

  /**
   `str.replace` with the global pattern `\w\S*` and callback Capitalize, on the suffix
   s[i..], the search resuming at i.
   A character that cannot start a match is copied and the search moves on by one; a word
   character starts a match that extends to MatchEnd, and the search resumes after it.
   */
  function ReplaceWords(s: string, i: nat): (r: string)
    requires i <= |s|
    ensures |r| == |s| - i
    ensures forall k :: i <= k < |s| && IsWhitespace(s[k]) ==> r[k - i] == s[k]
    decreases |s| - i
  {
    if i == |s| then ""
    else if IsWordChar(s[i]) then
      var e := MatchEnd(s, i + 1);
      Capitalize(s[i..e]) + ReplaceWords(s, e)
    else
      [s[i]] + ReplaceWords(s, i + 1)
  }

  /** Title-casing of a non-null string: the replacement run over the whole string. */
  function TitleText(s: string): (r: string)
    ensures |r| == |s|
    ensures forall k :: 0 <= k < |s| && IsWhitespace(s[k]) ==> r[k] == s[k]
  {
    ReplaceWords(s, 0)
  }

  /** `toTitleCase(str)`: `null` is returned as is, any string is title-cased. */
  function ToTitleCase(str: Option<string>): (r: Option<string>)
    ensures str.None? <==> r.None?
    ensures str.Some? ==> |r.value| == |str.value|
  {
    match str
    case None => None
    case Some(s) => Some(TitleText(s))
  }
}
