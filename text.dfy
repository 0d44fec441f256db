/** The few java.lang.String operations the service relies on. */
module Text {
  import opened Wrappers

  /** Character.isWhitespace: the Unicode space, line and paragraph separators
      other than the no-break spaces, plus the ASCII and information-separator
      control characters U+0009..U+000D and U+001C..U+001F. */
  predicate IsWhitespace(c: char) {
    || c == ' '
    || ('\t' <= c <= '\r')
    || ('\U{1C}' <= c <= '\U{1F}')
    || c == '\U{1680}'
    || ('\U{2000}' <= c <= '\U{2006}')
    || ('\U{2008}' <= c <= '\U{200A}')
    || c == '\U{2028}' || c == '\U{2029}'
    || c == '\U{205F}' || c == '\U{3000}'
  }

  /** String.isBlank: empty or white space only. */
  predicate IsBlank(s: string) {
    forall i :: 0 <= i < |s| ==> IsWhitespace(s[i])
  }

  /** The guard `s != null && !s.isBlank()` used to pick how a caller is identified. */
  predicate HasText(s: Option<string>) {
    s.Some? && !IsBlank(s.value)
  }

  /** Lower-casing of one character, as far as it decides equality with an
      all-ASCII lower-case word: A..Z, and the Kelvin sign, whose lower case is 'k'. */
  function LowerChar(c: char): (d: char)
    ensures 'A' <= c <= 'Z' ==> d as int == c as int + 32
    ensures !('A' <= c <= 'Z') && c != '\U{212A}' ==> d == c
  {
    if 'A' <= c <= 'Z' then (c as int + 32) as char
    else if c == '\U{212A}' then 'k'
    else c
  }

  /** String.toLowerCase in the root locale, restricted as LowerChar is. */
  function ToLower(s: string): (r: string)
    ensures |r| == |s|
    ensures forall i :: 0 <= i < |s| ==> r[i] == LowerChar(s[i])
  {
    seq(|s|, i requires 0 <= i < |s| => LowerChar(s[i]))
  }

  lemma {:induction false} LowerOfLowerWord(s: string)
    requires forall i :: 0 <= i < |s| ==> 'a' <= s[i] <= 'z'
    ensures ToLower(s) == s
  {
    assert forall i :: 0 <= i < |s| ==> ToLower(s)[i] == s[i];
  }
}
