/** Character classes of the alphabet and the ASCII part of `String.prototype.toLowerCase`. */
module Text {

  predicate IsDigit(c: char) { '0' <= c <= '9' }

  predicate IsUpper(c: char) { 'A' <= c <= 'Z' }

  predicate IsLower(c: char) { 'a' <= c <= 'z' }

  /** A character whose code fits in seven bits, so that it is one byte in UTF-8. */
  predicate IsAscii(c: char) { c as int < 128 }

  /** Lower-cases one character: an ASCII capital becomes its small letter,
      every other character is left alone. */
  function Lower(c: char): (d: char)
    ensures IsUpper(c) ==> IsLower(d) && d as int == c as int + 32
    ensures !IsUpper(c) ==> d == c
  {
    if IsUpper(c) then (c as int + 32) as char else c
  }

  /** `s.toLowerCase()` on a string: one character out per character in, in place. */
  function ToLower(s: string): string {
    seq(|s|, k requires 0 <= k < |s| => Lower(s[k]))
  }

  /** Lower-casing keeps the order of capitals, so it is injective on them. */
  lemma LowerMonotoneOnCapitals(c: char, d: char)
    requires IsUpper(c) && IsUpper(d)
    ensures c < d <==> Lower(c) < Lower(d)
    ensures c == d <==> Lower(c) == Lower(d)
  {
  }
}
