/** Whitespace and trimming as JavaScript's String.prototype.trim defines them. */
module Text {

  /** The characters `trim` removes: the WhiteSpace and LineTerminator code
      points of ECMA-262 (tab, vertical tab, form feed, space, no-break space,
      byte order mark, every other space separator of Unicode category Zs,
      line feed, carriage return, line and paragraph separator). */
  predicate IsWhitespace(c: char) {
    || c == '\t' || c == '\n' || c == '\U{000B}' || c == '\U{000C}' || c == '\r'
    || c == ' ' || c == '\U{00A0}' || c == '\U{1680}'
    || ('\U{2000}' <= c <= '\U{200A}')
    || c == '\U{2028}' || c == '\U{2029}' || c == '\U{202F}' || c == '\U{205F}'
    || c == '\U{3000}' || c == '\U{FEFF}'
  }

  predicate AllWhitespace(s: string) {
    forall i :: 0 <= i < |s| ==> IsWhitespace(s[i])
  }

  /** Neither the first nor the last character is whitespace. */
  predicate NoOuterWhitespace(s: string) {
    |s| == 0 || (!IsWhitespace(s[0]) && !IsWhitespace(s[|s| - 1]))
  }

  /** `r` is `s` with the whitespace-only prefix `s[..lo]` and a
      whitespace-only suffix cut off. */
  predicate CutAt(s: string, r: string, lo: int) {
    && 0 <= lo <= |s| - |r|
    && r == s[lo..lo + |r|]
    && AllWhitespace(s[..lo])
    && AllWhitespace(s[lo + |r|..])
  }

  /** `r` is `s` with some whitespace-only prefix and some whitespace-only suffix cut off. */
  ghost predicate CutFrom(s: string, r: string) {
    exists lo :: CutAt(s, r, lo)
  }

  function TrimStart(s: string): (r: string)
    ensures |r| <= |s| && r == s[|s| - |r|..]
    ensures AllWhitespace(s[..|s| - |r|])
    ensures |r| == 0 || !IsWhitespace(r[0])
  {
    if |s| > 0 && IsWhitespace(s[0]) then TrimStart(s[1..]) else s
  }

  function TrimEnd(s: string): (r: string)
    ensures |r| <= |s| && r == s[..|r|]
    ensures AllWhitespace(s[|r|..])
    ensures |r| == 0 || !IsWhitespace(r[|r| - 1])
  {
    if |s| > 0 && IsWhitespace(s[|s| - 1]) then TrimEnd(s[..|s| - 1]) else s
  }

  /** `s.trim()`: the longest stretch of `s` that neither starts nor ends with whitespace. */
  function Trim(s: string): (r: string)
    ensures NoOuterWhitespace(r)
    ensures CutFrom(s, r)
    ensures |r| == 0 <==> AllWhitespace(s)
  {
    var t := TrimStart(s);
    var lo := |s| - |t|;
    assert t == s[lo..];
    TrimEndCuts(s, lo);
    TrimEnd(t)
  }

  /** Trimming the end of a suffix left after a whitespace prefix. */
  lemma TrimEndCuts(s: string, lo: nat)
    requires lo <= |s| && AllWhitespace(s[..lo])
    ensures CutAt(s, TrimEnd(s[lo..]), lo)
    ensures |TrimEnd(s[lo..])| == 0 ==> AllWhitespace(s)
  {
    var t := s[lo..];
    var r := TrimEnd(t);
    SuffixSlices(s, lo, |r|);
    if |r| == 0 {
      WhitespaceConcat(s[..lo], t);
      assert s == s[..lo] + t;
    }
  }

  lemma SuffixSlices(s: string, lo: nat, n: nat)
    requires lo + n <= |s|
    ensures s[lo..][..n] == s[lo..lo + n]
    ensures s[lo..][n..] == s[lo + n..]
  {
  }

  lemma WhitespaceConcat(a: string, b: string)
    requires AllWhitespace(a) && AllWhitespace(b)
    ensures AllWhitespace(a + b)
  {
    forall i | 0 <= i < |a + b|
      ensures IsWhitespace((a + b)[i])
    {
      if i >= |a| {
        assert (a + b)[i] == b[i - |a|];
      }
    }
  }

  /** `!s.trim()`: the trimmed string is empty, hence falsy. */
  function IsBlank(s: string): (blank: bool)
    ensures blank <==> AllWhitespace(s)
  {
    Trim(s) == ""
  }

  /** Trimming leaves alone exactly the strings with no outer whitespace. */
  lemma TrimFixedPoint(s: string)
    ensures Trim(s) == s <==> NoOuterWhitespace(s)
  {
    if NoOuterWhitespace(s) {
      assert TrimStart(s) == s;
      assert TrimEnd(s) == s;
    }
  }

  lemma TrimIdempotent(s: string)
    ensures Trim(Trim(s)) == Trim(s)
  {
    TrimFixedPoint(Trim(s));
  }

}
