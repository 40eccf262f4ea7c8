/**
 The character classes and case mappings that the title-caser relies on, restricted to
 ASCII: the regular-expression classes `\w` and `\s`, and the effect of JavaScript's
 `toUpperCase` / `toLowerCase` on single characters and on whole strings.
 */
module Ascii {

  predicate IsUpperLetter(c: char) {
    'A' <= c <= 'Z'
  }

  predicate IsLowerLetter(c: char) {
    'a' <= c <= 'z'
  }

  /** The regular-expression class `\w`: letters, digits and the underscore, all of them ASCII. */
  predicate IsWordChar(c: char)
    ensures IsWordChar(c) ==> c as int < 128
    ensures IsWordChar(c) ==> !IsWhitespace(c)
  {
    IsUpperLetter(c) || IsLowerLetter(c) || ('0' <= c <= '9') || c == '_'
  }

  /**
   The ASCII members of `\s`: space, tab, line feed, vertical tab, form feed, carriage return.
   All of them are control characters or the space, below every letter, digit and `_`.
   */
  predicate IsWhitespace(c: char)
    ensures IsWhitespace(c) ==> c as int <= ' ' as int
    ensures IsWhitespace(c) <==> c == ' ' || c == '\t' || c == '\n' || c == '\r' || c as int == 11 || c as int == 12
  {
    c == ' ' || 9 <= c as int <= 13
  }

  /** `toUpperCase` on one character: lower-case letters become upper-case, all else is kept. */
  function ToUpper(c: char): (r: char)
    ensures !IsLowerLetter(r)
    ensures IsLowerLetter(c) ==> IsUpperLetter(r) && r as int - 'A' as int == c as int - 'a' as int
    ensures !IsLowerLetter(c) ==> r == c
    ensures IsWordChar(r) == IsWordChar(c)
    ensures IsWhitespace(r) == IsWhitespace(c)
  {
    if IsLowerLetter(c) then (c as int - 32) as char else c
  }

  /** `toLowerCase` on one character: upper-case letters become lower-case, all else is kept. */
  function ToLower(c: char): (r: char)
    ensures !IsUpperLetter(r)
    ensures IsUpperLetter(c) ==> IsLowerLetter(r) && r as int - 'a' as int == c as int - 'A' as int
    ensures !IsUpperLetter(c) ==> r == c
    ensures IsWordChar(r) == IsWordChar(c)
    ensures IsWhitespace(r) == IsWhitespace(c)
  {
    if IsUpperLetter(c) then (c as int + 32) as char else c
  }

  /** The two case maps are inverse on the letters they change. */
  lemma CaseRoundTrip(c: char)
    ensures IsLowerLetter(c) ==> ToLower(ToUpper(c)) == c
    ensures IsUpperLetter(c) ==> ToUpper(ToLower(c)) == c
  {
  }

  /** `String.prototype.toUpperCase`, character by character. */
  function StrUpper(t: string): (r: string)
    ensures |r| == |t|
    ensures forall k :: 0 <= k < |t| ==> r[k] == ToUpper(t[k])
  {
    if |t| == 0 then "" else [ToUpper(t[0])] + StrUpper(t[1..])
  }

  /** `String.prototype.toLowerCase`, character by character. */
  function StrLower(t: string): (r: string)
    ensures |r| == |t|
    ensures forall k :: 0 <= k < |t| ==> r[k] == ToLower(t[k])
  {
    if |t| == 0 then "" else [ToLower(t[0])] + StrLower(t[1..])
  }
}
