/** Java's `String.isBlank`, over Unicode scalar values. */
module Text {

  /** `Character.isWhitespace`: the space, line and paragraph separators other
      than the three no-break spaces (U+00A0, U+2007, U+202F), plus the ASCII
      controls U+0009..U+000D and U+001C..U+001F. */
  predicate IsWhitespace(c: char)
  {
    || c == ' ' || c == '\t' || c == '\n' || c == '\U{000B}' || c == '\U{000C}' || c == '\r'
    || ('\U{001C}' <= c <= '\U{001F}')
    || c == '\U{1680}'
    || ('\U{2000}' <= c <= '\U{2006}')
    || ('\U{2008}' <= c <= '\U{200A}')
    || c == '\U{2028}' || c == '\U{2029}' || c == '\U{205F}' || c == '\U{3000}'
  }

  /** The index of the first character from `from` on that is not white
      space, or `|s|` when there is none. */
  function IndexOfNonWhitespace(s: string, from: nat): (i: nat)
    requires from <= |s|
    ensures from <= i <= |s|
    ensures forall j :: from <= j < i ==> IsWhitespace(s[j])
    ensures i < |s| ==> !IsWhitespace(s[i])
    decreases |s| - from
  {
    if from == |s| || !IsWhitespace(s[from]) then from else IndexOfNonWhitespace(s, from + 1)
  }

  /** `isBlank`: the scan for a non-white-space character reaches the end,
      that is, the string is empty or made only of white space. */
  function IsBlank(s: string): (b: bool)
    ensures b <==> forall j :: 0 <= j < |s| ==> IsWhitespace(s[j])
  {
    IndexOfNonWhitespace(s, 0) == |s|
  }
}
