/**
 * Product-name normalisation. Names are compared after lower-casing; this
 * model lower-cases the ASCII letters A-Z only.
 */
module Text {

  predicate IsUpper(c: char) {
    'A' <= c <= 'Z'
  }

  function LowerChar(c: char): (l: char) {
    if IsUpper(c) then (c as int + 32) as char else c
  }

  /** No ASCII upper-case letter occurs in `s`. */
  predicate IsLower(s: string) {
    forall i :: 0 <= i < |s| ==> !IsUpper(s[i])
  }

  /**
   * `s` lower-cased: the result has no upper-case letter, keeps the length,
   * turns each upper-case letter into its lower-case letter (32 code points
   * on), agrees with `s` at every other position, and leaves an already
   * lower-case name as it is (so lower-casing twice is lower-casing once).
   */
  function Lower(s: string): (r: string)
    ensures |r| == |s| && IsLower(r)
    ensures forall i :: 0 <= i < |s| && IsUpper(s[i]) ==> r[i] as int == s[i] as int + 32
    ensures forall i :: 0 <= i < |s| && !IsUpper(s[i]) ==> r[i] == s[i]
    ensures IsLower(s) ==> r == s
  {
    seq(|s|, i requires 0 <= i < |s| => LowerChar(s[i]))
  }

  /** Two characters that are equal or are the two cases of one letter. */
  predicate SameUpToCase(x: char, y: char) {
    x == y
    || (IsUpper(x) && y as int == x as int + 32)
    || (IsUpper(y) && x as int == y as int + 32)
  }

  /**
   * Two names lower-case to the same string exactly when they have the same
   * length and differ at most in the case of their letters: "Snickers",
   * "SNICKERS" and "snickers" all name one product.
   */
  lemma LowerIgnoresCase(a: string, b: string)
    ensures Lower(a) == Lower(b) <==>
      |a| == |b| && forall i :: 0 <= i < |a| ==> SameUpToCase(a[i], b[i])
  {
  }
}
