/** The two string operations event creation relies on: `string.IsNullOrWhiteSpace` and `Trim`. */
module Text {
  import opened Primitives

  /** `char.IsWhiteSpace`: the Unicode space, line and paragraph separators, U+0009 to U+000D and U+0085. */
  predicate IsWhiteSpace(c: char)
  {
    || ('\t' <= c <= '\r')
    || c == ' '
    || c == '\U{0085}'
    || c == '\U{00A0}'
    || c == '\U{1680}'
    || ('\U{2000}' <= c <= '\U{200A}')
    || c == '\U{2028}'
    || c == '\U{2029}'
    || c == '\U{202F}'
    || c == '\U{205F}'
    || c == '\U{3000}'
  }

  predicate AllWhiteSpace(s: string)
  {
    forall i :: 0 <= i < |s| ==> IsWhiteSpace(s[i])
  }

  /** `string.IsNullOrWhiteSpace`. */
  predicate IsNullOrWhiteSpace(s: Option<string>)
  {
    s.None? || AllWhiteSpace(s.value)
  }

  /** Neither end of the string is white space. */
  predicate IsTrimmed(s: string)
  {
    s == [] || (!IsWhiteSpace(s[0]) && !IsWhiteSpace(s[|s| - 1]))
  }

  /** Drops the leading white space: the result is the suffix from the first other character on. */
  function TrimStart(s: string): (r: string)
    ensures |r| <= |s| && r == s[|s| - |r|..]
    ensures AllWhiteSpace(s[..|s| - |r|])
    ensures r == [] || !IsWhiteSpace(r[0])
  {
    if |s| > 0 && IsWhiteSpace(s[0]) then
      var r := TrimStart(s[1..]);
      assert s[..|s| - |r|] == [s[0]] + s[1..][..|s| - 1 - |r|];
      r
    else
      s
  }

  /** Drops the trailing white space: the result is the prefix up to the last other character. */
  function TrimEnd(s: string): (r: string)
    ensures |r| <= |s| && r == s[..|r|]
    ensures AllWhiteSpace(s[|r|..])
    ensures r == [] || !IsWhiteSpace(r[|r| - 1])
  {
    if |s| > 0 && IsWhiteSpace(s[|s| - 1]) then
      var r := TrimEnd(s[..|s| - 1]);
      assert s[|r|..] == s[..|s| - 1][|r|..] + [s[|s| - 1]];
      r
    else
      s
  }

  /** `r` is the part of `s` from `lo` on, with nothing but white space before and after it. */
  predicate IsWhiteSpaceFramed(s: string, r: string, lo: int)
  {
    && 0 <= lo <= |s| - |r|
    && r == s[lo..lo + |r|]
    && AllWhiteSpace(s[..lo]) && AllWhiteSpace(s[lo + |r|..])
  }

  /** `string.Trim()`: the longest infix of `s` with no white space at either end, what is
      cut off on both sides being white space; it is empty exactly when `s` is all white
      space. */
  function Trim(s: string): (r: string)
    ensures IsTrimmed(r)
    ensures exists lo :: IsWhiteSpaceFramed(s, r, lo)
    ensures r == [] <==> AllWhiteSpace(s)
    ensures IsTrimmed(s) ==> r == s
  {
    var a := TrimStart(s);
    var r := TrimEnd(a);
    CutsAreWhiteSpace(s, a, r);
    r
  }

  /** Cutting white space off the start of `s` (leaving `a`) and then off the end of `a`
      (leaving `r`) frames `r` in white space; `r` is empty only if `s` was all white space. */
  lemma CutsAreWhiteSpace(s: string, a: string, r: string)
    requires |a| <= |s| && a == s[|s| - |a|..] && AllWhiteSpace(s[..|s| - |a|])
    requires |r| <= |a| && r == a[..|r|] && AllWhiteSpace(a[|r|..])
    requires r == [] || !IsWhiteSpace(r[0])
    ensures IsWhiteSpaceFramed(s, r, |s| - |a|)
    ensures r == [] <==> AllWhiteSpace(s)
  {
    var lo := |s| - |a|;
    assert s[lo..lo + |r|] == r;
    assert s[lo + |r|..] == a[|r|..];
    if r == [] {
      forall i | 0 <= i < |s|
        ensures IsWhiteSpace(s[i])
      {
        if i < lo {
          assert s[i] == s[..lo][i];
        } else {
          assert s[i] == a[|r|..][i - lo];
        }
      }
    } else {
      assert s[lo] == r[0];
    }
  }
}
