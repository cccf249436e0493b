/**
 * Python's `str.strip()` with no argument, as used on the search entry text:
 * it removes leading and trailing characters for which `str.isspace()` holds.
 */
module PyStr {

  /** `c.isspace()` in Python 3: the 29 code points that Python treats as whitespace. */
  predicate IsSpace(c: char)
  {
    || ('\t' <= c <= '\r')
    || ('\U{1C}' <= c <= ' ')
    || c == '\U{85}' || c == '\U{A0}' || c == '\U{1680}'
    || ('\U{2000}' <= c <= '\U{200A}')
    || c == '\U{2028}' || c == '\U{2029}' || c == '\U{202F}' || c == '\U{205F}' || c == '\U{3000}'
  }

  predicate AllSpace(s: string)
  {
    forall k :: 0 <= k < |s| ==> IsSpace(s[k])
  }

  /** Index of the first non-whitespace character of `s`, or `|s|` if there is none. */
  function LeftEnd(s: string): (i: nat)
    ensures i <= |s|
    ensures AllSpace(s[..i])
    ensures i < |s| ==> !IsSpace(s[i])
  {
    if s != [] && IsSpace(s[0]) then
      var i := 1 + LeftEnd(s[1..]);
      assert s[..i] == [s[0]] + s[1..][..i - 1];
      i
    else 0
  }

  /** One past the last non-whitespace character of `s` at or after `lo`, or `lo` if there is none. */
  function RightEnd(s: string, lo: nat): (j: nat)
    requires lo <= |s|
    ensures lo <= j <= |s|
    ensures AllSpace(s[j..])
    ensures j > lo ==> !IsSpace(s[j - 1])
    decreases |s| - lo
  {
    if |s| > lo && IsSpace(s[|s| - 1]) then
      var j := RightEnd(s[..|s| - 1], lo);
      assert s[j..] == s[..|s| - 1][j..] + [s[|s| - 1]];
      j
    else |s|
  }

  /** `s.strip()`: the slice of `s` between its leading and its trailing whitespace. */
  function Strip(s: string): (r: string)
    ensures |r| <= |s|
    ensures r == [] <==> AllSpace(s)
    ensures r != [] ==> !IsSpace(r[0]) && !IsSpace(r[|r| - 1])
  {
    var i := LeftEnd(s);
    var j := RightEnd(s, i);
    assert i == j ==> s[..i] == s;
    s[i..j]
  }

  /** Stripping is a projection: a stripped string strips to itself. */
  lemma StripIdempotent(s: string)
    ensures Strip(Strip(s)) == Strip(s)
  {
    var r := Strip(s);
    if r != [] {
      assert LeftEnd(r) == 0;
      assert RightEnd(r, 0) == |r|;
      assert r[0..|r|] == r;
    }
  }

  /** Stripping only removes whitespace: what it drops from either end is all whitespace. */
  lemma StripIsTrimmedSlice(s: string)
    ensures exists i, j :: 0 <= i <= j <= |s| && Strip(s) == s[i..j] && AllSpace(s[..i]) && AllSpace(s[j..])
  {
    var i := LeftEnd(s);
    var j := RightEnd(s, i);
    assert Strip(s) == s[i..j];
  }
}
