/** ASCII character classes and the lower-casing the redaction scans share.
    Case folding is ASCII-only: characters outside A-Z are left as they are. */
module Chars {

  predicate IsDigit(c: char) { '0' <= c <= '9' }
  predicate IsLower(c: char) { 'a' <= c <= 'z' }
  predicate IsUpper(c: char) { 'A' <= c <= 'Z' }

  /** `\s`, restricted to ASCII. */
  predicate IsBlank(c: char) {
    c == ' ' || c == '\t' || c == '\n' || c == '\r' || c == '\U{0B}' || c == '\U{0C}'
  }

  function ToLower(c: char): (r: char)
    ensures !IsUpper(r)
    ensures r != c ==> IsUpper(c) && IsLower(r)
  {
    if IsUpper(c) then c - 'A' + 'a' else c
  }

  /** The lower-case letter at the same place of the alphabet; different capitals stay different. */
  lemma {:induction false} SameLetter(c: char, d: char)
    ensures IsUpper(c) ==> ToLower(c) as int - 'a' as int == c as int - 'A' as int
    ensures IsUpper(c) && IsUpper(d) && ToLower(c) == ToLower(d) ==> c == d
    ensures !IsUpper(c) ==> ToLower(c) == c
  {}

  function Lower(s: string): (r: string)
    ensures |r| == |s|
    ensures forall i :: 0 <= i < |s| ==> r[i] == ToLower(s[i])
  {
    seq(|s|, i requires 0 <= i < |s| => ToLower(s[i]))
  }

  /** A set of characters written the way a regular expression writes one. */
  datatype CharClass = CharClass(lower: bool, upper: bool, digit: bool, blank: bool, extra: string) {
    predicate Has(c: char) {
      (lower && IsLower(c)) || (upper && IsUpper(c)) || (digit && IsDigit(c)) || (blank && IsBlank(c)) || c in extra
    }
  }

  const DIGITS := CharClass(false, false, true, false, "")
  const LOWERS := CharClass(true, false, false, false, "")
  const LETTERS := CharClass(true, true, false, false, "")
  const LOWER_ALNUMS := CharClass(true, false, true, false, "")
  const ALNUMS := CharClass(true, true, true, false, "")
}
