/**
 ASCII case mapping, standing in for Python's `str.lower()` where the
 dashboard compares an intern's status with "completed".
 */
module AsciiText {

  predicate IsUpper(c: char) { 'A' <= c <= 'Z' }

  predicate IsLower(c: char) { 'a' <= c <= 'z' }

  /** The lower-case form of one character; characters outside 'A'..'Z' are kept. */
  function LowerChar(c: char): (d: char)
    ensures !IsUpper(d)
    ensures IsUpper(c) ==> IsLower(d)
    ensures !IsUpper(c) ==> d == c
  {
    if IsUpper(c) then (c as int + 32) as char else c
  }

  /** The upper-case form of a lower-case ASCII letter. */
  function UpperChar(c: char): (d: char)
    requires IsLower(c)
    ensures IsUpper(d) && LowerChar(d) == c
  {
    (c as int - 32) as char
  }

  /** `s.lower()`, one character at a time. */
  function Lower(s: string): (t: string)
    ensures |t| == |s|
    ensures forall i :: 0 <= i < |s| ==> t[i] == LowerChar(s[i])
  {
    if s == [] then [] else [LowerChar(s[0])] + Lower(s[1..])
  }

  /** Exactly two characters lower to a given lower-case letter: itself and its capital. */
  lemma LowerCharInverse(c: char, l: char)
    requires IsLower(l)
    ensures LowerChar(c) == l <==> c == l || c == UpperChar(l)
  {
  }

  /**
   A string lowers to the all-lower-case word `w` exactly when it spells `w`
   with each letter in either case.
   */
  predicate SpellsIgnoringCase(s: string, w: string)
    requires forall i :: 0 <= i < |w| ==> IsLower(w[i])
  {
    |s| == |w| && forall i :: 0 <= i < |s| ==> s[i] == w[i] || s[i] == UpperChar(w[i])
  }

  lemma LowerEqualsWord(s: string, w: string)
    requires forall i :: 0 <= i < |w| ==> IsLower(w[i])
    ensures Lower(s) == w <==> SpellsIgnoringCase(s, w)
  {
    if Lower(s) == w {
      forall i | 0 <= i < |s| ensures s[i] == w[i] || s[i] == UpperChar(w[i]) {
        LowerCharInverse(s[i], w[i]);
      }
    }
    if SpellsIgnoringCase(s, w) {
      forall i | 0 <= i < |s| ensures Lower(s)[i] == w[i] {
        LowerCharInverse(s[i], w[i]);
      }
    }
  }
}
