/** Characters as the C library classifies them in its default locale. */
module Text {
  function LowerChar(c: char): char {
    if 'A' <= c <= 'Z' then c + ('a' - 'A') else c
  }

  function Lower(s: string): (r: string)
    ensures |r| == |s|
  {
    seq(|s|, i requires 0 <= i < |s| => LowerChar(s[i]))
  }

  /** What C string functions see of a string: nothing from its first NUL byte on. */
  function CString(s: string): string {
    if s == "" || s[0] == '\0' then "" else [s[0]] + CString(s[1..])
  }

  predicate IsSpace(c: char) { c == ' ' || '\t' <= c <= '\r' }
}
