/**
 `String.prototype.toLowerCase`, restricted to the ASCII letters, and the
 case-insensitive comparison the tooltip performs with it.
 */
module Text {

  predicate IsUpper(c: char) { 'A' <= c <= 'Z' }

  function LowerChar(c: char): (d: char)
    ensures !IsUpper(d)
    ensures IsUpper(c) ==> d as int == c as int + 32
    ensures !IsUpper(c) ==> d == c
  {
    if IsUpper(c) then (c as int + 32) as char else c
  }

  /** Folds every ASCII capital to its lower-case letter, leaving all else. */
  function ToLower(s: string): (r: string)
    ensures |r| == |s|
    ensures forall i :: 0 <= i < |s| ==> r[i] == LowerChar(s[i])
  {
    if |s| == 0 then "" else [LowerChar(s[0])] + ToLower(s[1..])
  }

  /** `a.toLowerCase() == b.toLowerCase()`. */
  predicate EqualsIgnoringCase(a: string, b: string)
  {
    ToLower(a) == ToLower(b)
  }

  /** Lower-casing twice is lower-casing once. */
  lemma ToLowerIdempotent(s: string)
    ensures ToLower(ToLower(s)) == ToLower(s)
  {
  }

  /**
   Two strings are equal ignoring case exactly when they have the same length
   and agree position by position once each character is folded.
   */
  lemma EqualsIgnoringCaseCharwise(a: string, b: string)
    ensures EqualsIgnoringCase(a, b) <==>
      |a| == |b| && forall i :: 0 <= i < |a| ==> LowerChar(a[i]) == LowerChar(b[i])
  {
  }
}
