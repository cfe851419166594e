/** Character classes and scanning primitives shared by the regular-expression
    models and by Python's `str.strip()`. */
module Text {

  /** Python's `\s` on a `str` pattern, which is the same set as `str.isspace()`:
      ASCII tab, line feed, vertical tab, form feed, carriage return, the
      information separators U+001C..U+001F, space, and the Unicode spaces
      U+0085, U+00A0, U+1680, U+2000..U+200A, U+2028, U+2029, U+202F, U+205F, U+3000. */
  predicate IsWs(c: char) {
    || ('\t' <= c <= '\r')
    || ('\U{1C}' <= c <= '\U{1F}')
    || c == ' '
    || c == '\U{85}'
    || c == '\U{A0}'
    || c == '\U{1680}'
    || ('\U{2000}' <= c <= '\U{200A}')
    || c == '\U{2028}'
    || c == '\U{2029}'
    || c == '\U{202F}'
    || c == '\U{205F}'
    || c == '\U{3000}'
  }

  /** t occurs in s at position p. */
  predicate StartsAt(s: string, p: nat, t: string) {
    p + |t| <= |s| && s[p..p + |t|] == t
  }

  /** Every character of s[lo..hi] is in the class P. */
  predicate AllIn(s: string, lo: nat, hi: nat, P: char -> bool)
    requires lo <= hi <= |s|
  {
    forall t :: lo <= t < hi ==> P(s[t])
  }

  /** The end of the longest run of class-P characters that starts at p, as a
      greedy `[...]*` consumes it. */
  function SkipWhile(s: string, p: nat, P: char -> bool): (q: nat)
    requires p <= |s|
    decreases |s| - p
    ensures p <= q <= |s|
    ensures AllIn(s, p, q, P)
    ensures q == |s| || !P(s[q])
  {
    if p < |s| && P(s[p]) then SkipWhile(s, p + 1, P) else p
  }

  /** The greedy run is the only run from p that stops at a character outside
      the class: a `[...]*` followed by something outside the class cannot
      backtrack to a shorter run. */
  lemma SkipWhileUnique(s: string, p: nat, P: char -> bool, m: nat)
    requires p <= m <= |s| && AllIn(s, p, m, P) && (m == |s| || !P(s[m]))
    ensures m == SkipWhile(s, p, P)
  {
  }

  /** The start of the trailing run of whitespace inside s[lo..hi]. */
  function TrailingWsStart(s: string, lo: nat, hi: nat): (b: nat)
    requires lo <= hi <= |s|
    decreases hi
    ensures lo <= b <= hi
    ensures AllIn(s, b, hi, IsWs)
    ensures b == lo || !IsWs(s[b - 1])
  {
    if lo < hi && IsWs(s[hi - 1]) then TrailingWsStart(s, lo, hi - 1) else hi
  }

  /** Python's `str.strip()` with no argument: drop leading and trailing whitespace. */
  function Strip(s: string): (r: string)
    ensures |r| <= |s|
    ensures r == "" || (!IsWs(r[0]) && !IsWs(r[|r| - 1]))
    ensures r == "" <==> AllIn(s, 0, |s|, IsWs)
  {
    AllWsSkipped(s);
    var a := SkipWhile(s, 0, IsWs);
    var b := TrailingWsStart(s, a, |s|);
    s[a..b]
  }

  /** A text of whitespace alone is skipped whole by the leading run. */
  lemma AllWsSkipped(s: string)
    ensures AllIn(s, 0, |s|, IsWs) ==> SkipWhile(s, 0, IsWs) == |s|
  {
    if AllIn(s, 0, |s|, IsWs) {
      SkipWhileUnique(s, 0, IsWs, |s|);
    }
  }

  /** What Strip removed is whitespace at the two ends, and what it kept is a
      contiguous piece of s. */
  lemma StripIsInfix(s: string) returns (a: nat)
    ensures a + |Strip(s)| <= |s| && s[a..a + |Strip(s)|] == Strip(s)
    ensures AllIn(s, 0, a, IsWs) && AllIn(s, a + |Strip(s)|, |s|, IsWs)
  {
    a := SkipWhile(s, 0, IsWs);
  }

  /** Strip keeps every character class the whole string lies in. */
  lemma StripKeepsClass(s: string, P: char -> bool)
    requires AllIn(s, 0, |s|, P)
    ensures AllIn(Strip(s), 0, |Strip(s)|, P)
  {
    var a := StripIsInfix(s);
    var r := Strip(s);
    forall t | 0 <= t < |r| ensures P(r[t]) {
      assert r[t] == s[a + t];
    }
  }
}
