/** ASCII case mapping, standing for Python's `str.lower` and `str.upper`
    as the query-string parsing uses them. */
module Text {

  predicate IsUpperLetter(c: char) { 'A' <= c <= 'Z' }

  predicate IsLowerLetter(c: char) { 'a' <= c <= 'z' }

  function LowerChar(c: char): (r: char)
    ensures !IsUpperLetter(r)
    ensures IsUpperLetter(c) ==> r as int == c as int + 32
    ensures !IsUpperLetter(c) ==> r == c
  {
    if IsUpperLetter(c) then (c as int + 32) as char else c
  }

  function UpperChar(c: char): (r: char)
    ensures !IsLowerLetter(r)
    ensures IsLowerLetter(c) ==> r as int == c as int - 32
    ensures !IsLowerLetter(c) ==> r == c
  {
    if IsLowerLetter(c) then (c as int - 32) as char else c
  }

  /** `s.lower()`: maps every character on its own and keeps the length. */
  function Lower(s: string): (r: string)
    ensures |r| == |s|
    ensures forall i :: 0 <= i < |s| ==> r[i] == LowerChar(s[i])
  {
    if s == [] then [] else [LowerChar(s[0])] + Lower(s[1..])
  }

  /** `s.upper()`: maps every character on its own and keeps the length. */
  function Upper(s: string): (r: string)
    ensures |r| == |s|
    ensures forall i :: 0 <= i < |s| ==> r[i] == UpperChar(s[i])
  {
    if s == [] then [] else [UpperChar(s[0])] + Upper(s[1..])
  }

  /** Two strings that agree once lower-cased also agree once upper-cased:
      upper-casing ignores the case the caller wrote. */
  lemma UpperIgnoresCase(a: string, b: string)
    requires Lower(a) == Lower(b)
    ensures Upper(a) == Upper(b)
  {
  }
}
