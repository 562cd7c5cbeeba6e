/**
 The two string tests the form handlers use: JavaScript truthiness of a
 string (`!s` holds exactly for the empty string) and `String.prototype.trim`,
 which strips the ECMAScript WhiteSpace and LineTerminator code points from
 both ends.
 */
module Text {

  /** ECMAScript WhiteSpace (TAB, VT, FF, SP, NBSP, ZWNBSP and the Zs category)
      and LineTerminator (LF, CR, LS, PS) code points. */
  predicate IsWhitespace(c: char) {
    || c == '\t' || c == '\n' || c == '\U{000B}' || c == '\U{000C}' || c == '\r'
    || c == ' ' || c == '\U{00A0}' || c == '\U{1680}'
    || ('\U{2000}' <= c <= '\U{200A}')
    || c == '\U{2028}' || c == '\U{2029}' || c == '\U{202F}' || c == '\U{205F}'
    || c == '\U{3000}' || c == '\U{FEFF}'
  }

  /** Every character of `s` from position `i` up to `j` is whitespace. */
  predicate BlankBetween(s: string, i: int, j: int)
    requires 0 <= i <= j <= |s|
  {
    forall k :: i <= k < j ==> IsWhitespace(s[k])
  }

  predicate IsBlank(s: string) {
    BlankBetween(s, 0, |s|)
  }

  /** JavaScript truthiness of a string: only `''` is falsy. */
  predicate Truthy(s: string) {
    s != ""
  }

  /** The end of the run of whitespace that starts at `i`. */
  function SkipForward(s: string, i: nat): (j: nat)
    requires i <= |s|
    ensures i <= j <= |s|
    ensures BlankBetween(s, i, j)
    ensures j < |s| ==> !IsWhitespace(s[j])
    decreases |s| - i
  {
    if i == |s| || !IsWhitespace(s[i]) then i else SkipForward(s, i + 1)
  }

  /** The start of the run of whitespace that ends at `j`, not going below `lo`. */
  function SkipBackward(s: string, lo: nat, j: nat): (i: nat)
    requires lo <= j <= |s|
    ensures lo <= i <= j
    ensures BlankBetween(s, i, j)
    ensures i > lo ==> !IsWhitespace(s[i - 1])
    decreases j
  {
    if j == lo || !IsWhitespace(s[j - 1]) then j else SkipBackward(s, lo, j - 1)
  }

  /** `s.trim()`: the slice of `s` left after cutting the whitespace off both
      ends; it neither starts nor ends with whitespace. */
  function Trim(s: string): (r: string)
    ensures |r| <= |s|
    ensures exists i :: (0 <= i <= |s| - |r| && r == s[i..i + |r|]
      && BlankBetween(s, 0, i) && BlankBetween(s, i + |r|, |s|))
    ensures r != [] ==> !IsWhitespace(r[0]) && !IsWhitespace(r[|r| - 1])
  {
    var a := SkipForward(s, 0);
    var b := SkipBackward(s, a, |s|);
    assert BlankBetween(s, 0, a);
    s[a..b]
  }

  /** `trim()` yields the empty string exactly for all-whitespace input. */
  lemma TrimEmptyIffBlank(s: string)
    ensures Trim(s) == "" <==> IsBlank(s)
  {
    var a := SkipForward(s, 0);
    var b := SkipBackward(s, a, |s|);
    if a < |s| {
      assert b > a;
    }
  }
}
