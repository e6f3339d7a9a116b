/**
 * Character classes and ASCII case mapping. The strings these are applied to
 * (colour strings already accepted by the hex test, fixed device patterns) are
 * ASCII, where JavaScript's toLowerCase/toUpperCase and the case folding of a
 * non-Unicode `/i` regular expression agree with the mapping below.
 */
module Text {
  predicate IsDigit(c: char) { '0' <= c <= '9' }

  predicate IsHexDigit(c: char) { IsDigit(c) || 'a' <= c <= 'f' || 'A' <= c <= 'F' }

  predicate IsUpperLetter(c: char) { 'A' <= c <= 'Z' }

  predicate IsLowerLetter(c: char) { 'a' <= c <= 'z' }

  function LowerChar(c: char): (r: char)
    ensures !IsUpperLetter(r)
    ensures IsLowerLetter(c) || !IsUpperLetter(c) ==> r == c
  {
    if IsUpperLetter(c) then (c as int + 32) as char else c
  }

  function UpperChar(c: char): (r: char)
    ensures !IsLowerLetter(r)
    ensures IsUpperLetter(c) || !IsLowerLetter(c) ==> r == c
  {
    if IsLowerLetter(c) then (c as int - 32) as char else c
  }

  lemma LowerOfUpper(c: char)
    ensures LowerChar(UpperChar(c)) == LowerChar(c)
  {
  }

  /** No upper-case ASCII letter anywhere in s. */
  predicate IsLowercase(s: string) {
    forall i :: 0 <= i < |s| ==> !IsUpperLetter(s[i])
  }

  function ToLower(s: string): (r: string)
    ensures |r| == |s|
    ensures forall i :: 0 <= i < |s| ==> r[i] == LowerChar(s[i])
  {
    if s == [] then [] else [LowerChar(s[0])] + ToLower(s[1..])
  }

  function ToUpper(s: string): (r: string)
    ensures |r| == |s|
    ensures forall i :: 0 <= i < |s| ==> r[i] == UpperChar(s[i])
  {
    if s == [] then [] else [UpperChar(s[0])] + ToUpper(s[1..])
  }

  /** Lower-casing leaves a lower-case string as it is. */
  lemma LowercaseFixed(s: string)
    requires IsLowercase(s)
    ensures ToLower(s) == s
  {
  }

  /** Lower-casing an upper-cased lower-case string gives it back. */
  lemma UpperLowerRoundTrip(s: string)
    requires IsLowercase(s)
    ensures ToLower(ToUpper(s)) == s
  {
  }
}
