/** The two `os.path` functions the batch runner uses, as `posixpath` defines them. */
module Paths {

  /** Index of the last `c` in `s[..hi]`, or -1. */
  function RFindCharBelow(s: string, c: char, hi: nat): (r: int)
    requires hi <= |s|
    ensures -1 <= r < hi
    ensures r >= 0 ==> s[r] == c
    ensures forall i :: r < i < hi ==> s[i] != c
    decreases hi
  {
    if hi == 0 then -1
    else if s[hi - 1] == c then hi - 1
    else RFindCharBelow(s, c, hi - 1)
  }

  /** `s.rfind(c)` for a single character. */
  function RFindChar(s: string, c: char): (r: int)
    ensures -1 <= r < |s|
    ensures r >= 0 ==> s[r] == c
    ensures forall i :: r < i < |s| ==> s[i] != c
  {
    RFindCharBelow(s, c, |s|)
  }

  /** Every character of `p[lo..hi]` is a dot. */
  predicate AllDots(p: string, lo: int, hi: int)
    requires 0 <= lo && hi <= |p|
  {
    forall i :: lo <= i < hi ==> p[i] == '.'
  }

  /**
   * `os.path.splitext(p)`: the extension starts at the last dot of the base name, unless only
   * dots precede that dot in the base name (so `.html` has no extension).
   */
  function SplitExt(p: string): (r: (string, string))
    ensures r.0 + r.1 == p
    ensures r.1 == [] || (r.1[0] == '.' && forall i :: 0 < i < |r.1| ==> r.1[i] != '.' && r.1[i] != '/')
    ensures r.1 != [] ==> exists i :: RFindChar(p, '/') < i < |r.0| && p[i] != '.'
    ensures r.1 == [] ==> forall d :: RFindChar(p, '/') < d < |p| && p[d] == '.' ==> AllDots(p, RFindChar(p, '/') + 1, d)
  {
    var sepIndex := RFindChar(p, '/');
    var dotIndex := RFindChar(p, '.');
    if dotIndex > sepIndex && !AllDots(p, sepIndex + 1, dotIndex) then
      assert p[..dotIndex] + p[dotIndex..] == p;
      (p[..dotIndex], p[dotIndex..])
    else
      assert p + [] == p;
      (p, [])
  }

  /** `os.path.join(a, b)` for two components. */
  function Join(a: string, b: string): (r: string)
    ensures |b| > 0 && b[0] == '/' ==> r == b
    ensures (|b| == 0 || b[0] != '/') && a != [] && a[|a| - 1] != '/' ==> r == a + "/" + b
    ensures (|b| == 0 || b[0] != '/') && (a == [] || a[|a| - 1] == '/') ==> r == a + b
  {
    if |b| > 0 && b[0] == '/' then b
    else if a == [] || a[|a| - 1] == '/' then a + b
    else a + "/" + b
  }
}
