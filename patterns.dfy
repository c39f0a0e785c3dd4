/**
 * The regular-expression pieces the mirror matches names and URLs with:
 * `\d+\.\d+\.\d+` (a dotted triple of digit runs) and the name character
 * class `[_-\w.]`, which in a JavaScript regular expression means `_`, `-`,
 * the word characters and `.`.
 */
module Patterns {

  predicate IsDigit(c: char) {
    '0' <= c <= '9'
  }

  /** A character of `[_-\w.]`: letters, digits, `_`, `-` and `.`. */
  predicate NameChar(c: char) {
    ('a' <= c <= 'z') || ('A' <= c <= 'Z') || IsDigit(c) || c == '_' || c == '-' || c == '.'
  }

  /** `[_-\w.]+`: a non-empty run of name characters. */
  predicate NameToken(s: string) {
    |s| > 0 && forall k :: 0 <= k < |s| ==> NameChar(s[k])
  }

  /** The length of the run of digits starting at `i`. */
  function DigitRun(s: string, i: nat): (n: nat)
    requires i <= |s|
    ensures i + n <= |s|
    ensures forall k :: i <= k < i + n ==> IsDigit(s[k])
    ensures i + n < |s| ==> !IsDigit(s[i + n])
    decreases |s| - i
  {
    if i < |s| && IsDigit(s[i]) then 1 + DigitRun(s, i + 1) else 0
  }

  /**
   * `\d+\.\d+\.\d+` matches starting at `i`. A digit run followed by `.` must
   * be taken whole, so the match needs only the maximal runs.
   */
  predicate SemverAt(s: string, i: nat)
    requires i <= |s|
  {
    var a := DigitRun(s, i);
    a > 0 && i + a < |s| && s[i + a] == '.' &&
    var j := i + a + 1;
    var b := DigitRun(s, j);
    b > 0 && j + b < |s| && s[j + b] == '.' &&
    DigitRun(s, j + b + 1) > 0
  }

  /** The unanchored `s.match(/\d+\.\d+\.\d+/)` succeeds at or after `i`. */
  predicate HasSemverFrom(s: string, i: nat)
    requires i <= |s|
    decreases |s| - i
  {
    SemverAt(s, i) || (i < |s| && HasSemverFrom(s, i + 1))
  }

  predicate HasSemver(s: string) {
    HasSemverFrom(s, 0)
  }

  /** A string that matches somewhere is at least five characters long and holds a digit. */
  lemma {:induction false} SemverLength(s: string, i: nat)
    requires i <= |s| && HasSemverFrom(s, i)
    ensures i + 5 <= |s|
    decreases |s| - i
  {
    if !SemverAt(s, i) {
      SemverLength(s, i + 1);
    }
  }
}
