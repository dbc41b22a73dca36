/** The string helpers the controller relies on: `String.prototype.trim`
    and `String.prototype.repeat`. */
module Text {
  import opened Wrappers

  /** The characters `trim` removes: the WhiteSpace and LineTerminator code
      points of ECMAScript (sections 12.2 and 12.3 of ECMA-262). */
  const Whitespace: set<char> := {
    '\t', '\n', '\U{000B}', '\U{000C}', '\r', ' ', '\U{00A0}', '\U{1680}',
    '\U{2000}', '\U{2001}', '\U{2002}', '\U{2003}', '\U{2004}', '\U{2005}',
    '\U{2006}', '\U{2007}', '\U{2008}', '\U{2009}', '\U{200A}',
    '\U{2028}', '\U{2029}', '\U{202F}', '\U{205F}', '\U{3000}', '\U{FEFF}'
  }

  predicate IsWhitespace(c: char)
  {
    c in Whitespace
  }

  predicate AllWhitespace(s: string)
  {
    forall i :: 0 <= i < |s| ==> IsWhitespace(s[i])
  }

  /** Scans right from `i` past whitespace: the index of the first
      non-whitespace character at or after `i`, or `|s|` if there is none. */
  function SkipLeading(s: string, i: nat): (n: nat)
    requires i <= |s|
    ensures i <= n <= |s|
    ensures forall k :: i <= k < n ==> IsWhitespace(s[k])
    ensures n < |s| ==> !IsWhitespace(s[n])
    decreases |s| - i
  {
    if i < |s| && IsWhitespace(s[i]) then SkipLeading(s, i + 1) else i
  }

  /** Scans left from `j` down to `lo` past whitespace: the end of the last
      non-whitespace character in `s[lo..j]`, or `lo` if there is none. */
  function SkipTrailing(s: string, lo: nat, j: nat): (m: nat)
    requires lo <= j <= |s|
    ensures lo <= m <= j
    ensures forall k :: m <= k < j ==> IsWhitespace(s[k])
    ensures lo < m ==> !IsWhitespace(s[m - 1])
    decreases j
  {
    if lo < j && IsWhitespace(s[j - 1]) then SkipTrailing(s, lo, j - 1) else j
  }

  /** Where `s.trim()` starts and ends: everything before the start and from
      the end on is whitespace, and a non-empty trimmed slice neither starts
      nor ends with whitespace. */
  function TrimBounds(s: string): (b: (nat, nat))
    ensures b.0 <= b.1 <= |s|
    ensures forall k :: 0 <= k < b.0 ==> IsWhitespace(s[k])
    ensures forall k :: b.1 <= k < |s| ==> IsWhitespace(s[k])
    ensures b.0 < b.1 ==> !IsWhitespace(s[b.0]) && !IsWhitespace(s[b.1 - 1])
  {
    var start := SkipLeading(s, 0);
    (start, SkipTrailing(s, start, |s|))
  }

  /** `s.trim()`. */
  function Trim(s: string): string
  {
    var b := TrimBounds(s);
    s[b.0..b.1]
  }

  /** `!s.trim()`: the trimmed text is the (falsy) empty string. */
  predicate IsBlank(s: string)
  {
    Trim(s) == []
  }

  /** A text is blank exactly when every one of its characters is
      whitespace; in particular the empty text is blank. */
  lemma BlankIffAllWhitespace(s: string)
    ensures IsBlank(s) <==> AllWhitespace(s)
  {
  }

  /** `c.repeat(n)` for a one-character string `c`: `n` copies of `c`, or a
      RangeError (None) when the count is negative. */
  function Repeat(c: char, n: int): (r: Option<string>)
    ensures r.Some? <==> n >= 0
    ensures r.Some? ==> |r.value| == n && forall i :: 0 <= i < n ==> r.value[i] == c
  {
    if n < 0 then None
    else if n == 0 then Some("")
    else Some([c] + Repeat(c, n - 1).value)
  }
}
