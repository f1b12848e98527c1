/**
 * The few Python `str` operations the converter relies on: `find`, the last piece of `split`,
 * `rpartition` and `strip()`. They are modelled for non-empty separators, the only ones the
 * converter passes; Python raises `ValueError` for an empty one.
 */
module Text {

  import opened Wrappers

  /** `sep` occurs in `s` starting at index `i`. */
  predicate Occurs(s: string, sep: string, i: int) {
    0 <= i && i + |sep| <= |s| && s[i..i + |sep|] == sep
  }

  /** No occurrence of `sep` anywhere in `s`. */
  predicate ContainsNo(s: string, sep: string) {
    forall i :: 0 <= i <= |s| ==> !Occurs(s, sep, i)
  }

  /**
   * `sep` cannot overlap itself: no non-empty proper suffix of `sep` is also a prefix of it.
   * For such a separator two occurrences in one string are always at least `|sep|` apart.
   */
  predicate NoSelfOverlap(sep: string) {
    forall k :: 0 < k < |sep| ==> sep[k..|sep|] != sep[0..|sep| - k]
  }

  /** Python's `s.find(sep, start)`: the first occurrence at or after `start`, or `None`. */
  function FindFrom(s: string, sep: string, start: nat): (r: Option<nat>)
    ensures r.None? ==> forall i :: start <= i ==> !Occurs(s, sep, i)
    ensures r.Some? ==> start <= r.value && Occurs(s, sep, r.value)
    ensures r.Some? ==> forall i :: start <= i < r.value ==> !Occurs(s, sep, i)
    decreases |s| - start
  {
    if start + |sep| > |s| then None
    else if s[start..start + |sep|] == sep then Some(start)
    else FindFrom(s, sep, start + 1)
  }

  /**
   * Where the last piece of Python's `s[start:].split(sep)` begins: the splitter finds the first
   * occurrence from the left, skips over it and carries on from its end.
   */
  function LastPieceStart(s: string, sep: string, start: nat): (k: nat)
    requires |sep| > 0 && start <= |s|
    ensures start <= k <= |s|
    ensures forall i :: k <= i ==> !Occurs(s, sep, i)
    ensures k == start || (k >= |sep| && Occurs(s, sep, k - |sep|))
    decreases |s| - start
  {
    match FindFrom(s, sep, start)
    case None => start
    case Some(i) => LastPieceStart(s, sep, i + |sep|)
  }

  /** Python's `s.split(sep)[-1]`. */
  function SplitLast(s: string, sep: string): (r: string)
    requires |sep| > 0
    ensures ContainsNo(r, sep)
  {
    var k := LastPieceStart(s, sep, 0);
    SliceContainsNo(s, sep, k, |s|);
    assert s[k..] == s[k..|s|];
    s[k..]
  }

  /** The last occurrence of `sep` that starts at or before `hi`, or -1. */
  function RFindUpTo(s: string, sep: string, hi: int): (r: int)
    ensures r == -1 || (0 <= r <= hi && Occurs(s, sep, r))
    ensures forall i :: r < i <= hi ==> !Occurs(s, sep, i)
    decreases if hi < 0 then 0 else hi + 1
  {
    if hi < 0 then -1
    else if Occurs(s, sep, hi) then hi
    else RFindUpTo(s, sep, hi - 1)
  }

  /** Python's `s.rfind(sep)`: the start of the last occurrence of `sep`, or -1. */
  function RFind(s: string, sep: string): (r: int)
    ensures r == -1 || Occurs(s, sep, r)
    ensures forall i :: r < i ==> !Occurs(s, sep, i)
  {
    RFindUpTo(s, sep, |s| - |sep|)
  }

  /** Python's `s.rpartition(sep)[2]`: the text after the last occurrence, or all of `s`. */
  function AfterLast(s: string, sep: string): string
    requires |sep| > 0
  {
    var j := RFind(s, sep);
    if j < 0 then s else s[j + |sep|..]
  }

  /** The characters for which Python's `str.isspace()` holds, which `str.strip()` removes. */
  predicate IsSpace(c: char) {
    c == ' ' || c == '\t' || c == '\n' || c == '\r' || c == '\U{0B}' || c == '\U{0C}' ||
    ('\U{1C}' <= c <= '\U{1F}') || c == '\U{85}' || c == '\U{A0}' || c == '\U{1680}' ||
    ('\U{2000}' <= c <= '\U{200A}') || c == '\U{2028}' || c == '\U{2029}' ||
    c == '\U{202F}' || c == '\U{205F}' || c == '\U{3000}'
  }

  predicate AllSpace(s: string) {
    forall i :: 0 <= i < |s| ==> IsSpace(s[i])
  }

  /** Neither end of `s` is whitespace. */
  predicate Trimmed(s: string) {
    |s| > 0 ==> !IsSpace(s[0]) && !IsSpace(s[|s| - 1])
  }

  /** Index of the first non-space character at or after `i`. */
  function SkipSpaces(s: string, i: nat): (r: nat)
    requires i <= |s|
    ensures i <= r <= |s|
    ensures forall k :: i <= k < r ==> IsSpace(s[k])
    ensures r < |s| ==> !IsSpace(s[r])
    decreases |s| - i
  {
    if i == |s| || !IsSpace(s[i]) then i else SkipSpaces(s, i + 1)
  }

  /** End of `s[lo..j]` once trailing spaces are dropped. */
  function DropTrailing(s: string, lo: nat, j: nat): (r: nat)
    requires lo <= j <= |s|
    ensures lo <= r <= j
    ensures forall k :: r <= k < j ==> IsSpace(s[k])
    ensures r > lo ==> !IsSpace(s[r - 1])
    decreases j
  {
    if j == lo || !IsSpace(s[j - 1]) then j else DropTrailing(s, lo, j - 1)
  }

  /** Python's `s.strip()`: the string without its leading and trailing whitespace. */
  function Strip(s: string): (r: string)
    ensures Trimmed(r)
  {
    var i := SkipSpaces(s, 0);
    var j := DropTrailing(s, i, |s|);
    s[i..j]
  }

  /** A slice of a string with no occurrence of `sep` has none either. */
  lemma SliceContainsNo(s: string, sep: string, lo: nat, hi: nat)
    requires lo <= hi <= |s|
    requires forall i :: lo <= i ==> !Occurs(s, sep, i)
    ensures ContainsNo(s[lo..hi], sep)
  {
    var t := s[lo..hi];
    forall i | 0 <= i <= |t| && Occurs(t, sep, i)
      ensures false
    {
      assert forall m :: 0 <= m < |sep| ==> s[lo + i + m] == t[i + m] == sep[m];
      assert s[lo + i..lo + i + |sep|] == sep;
      assert Occurs(s, sep, lo + i);
    }
  }

  /** An occurrence past `t` is an occurrence in the suffix `s[t..]`. */
  lemma OccursInSuffix(s: string, sep: string, t: nat, i: int)
    requires t <= i && Occurs(s, sep, i)
    ensures Occurs(s[t..], sep, i - t)
  {
    assert s[t..][i - t..i - t + |sep|] == s[i..i + |sep|];
  }

  /** Two occurrences of a separator that cannot overlap itself are at least its length apart. */
  lemma {:induction false} OccurrencesApart(s: string, sep: string, i: int, j: int)
    requires NoSelfOverlap(sep)
    requires Occurs(s, sep, i) && Occurs(s, sep, j) && i < j
    ensures j >= i + |sep|
  {
    // Both slices below are taken whatever `j` is; when the occurrences overlap they name the
    // same stretch of `s`, a suffix of `sep` that equals a prefix of it.
    var k := if j - i < |sep| then j - i else |sep|;
    OccurrenceSlice(s, sep, i, k, |sep|);
    OccurrenceSlice(s, sep, j, 0, |sep| - k);
  }

  /** Any stretch of an occurrence is the matching stretch of the separator. */
  lemma OccurrenceSlice(s: string, sep: string, p: int, a: int, b: int)
    requires Occurs(s, sep, p) && 0 <= a <= b <= |sep|
    ensures s[p + a..p + b] == sep[a..b]
  {
    forall m | 0 <= m < b - a
      ensures s[p + a..p + b][m] == sep[a..b][m]
    {
      assert s[p + a + m] == s[p..p + |sep|][a + m];
    }
  }

  /**
   * Python's left-to-right `split(sep)[-1]` agrees with `rpartition(sep)[2]` whenever `sep`
   * cannot overlap itself: the last piece is exactly the text after the last occurrence.
   */
  lemma SplitLastIsAfterLast(s: string, sep: string)
    requires |sep| > 0 && NoSelfOverlap(sep)
    ensures SplitLast(s, sep) == AfterLast(s, sep)
  {
    var k := LastPieceStart(s, sep, 0);
    var j := RFind(s, sep);
    if k == 0 {
    } else {
      var p := k - |sep|;
      assert Occurs(s, sep, p);
      assert j >= p;
      if j > p {
        OccurrencesApart(s, sep, p, j);
        assert false;
      }
    }
  }

  /** `Strip` removes only whitespace, and only from the two ends. */
  lemma StripRemovesOnlySpaces(s: string)
    ensures exists i, j :: 0 <= i <= j <= |s| && Strip(s) == s[i..j] && AllSpace(s[..i]) && AllSpace(s[j..])
  {
    var i := SkipSpaces(s, 0);
    var j := DropTrailing(s, i, |s|);
    assert AllSpace(s[..i]);
    assert AllSpace(s[j..]);
  }

  /** Stripping a cue-free string leaves it cue-free: `Strip` returns a slice of its input. */
  lemma StripKeepsNo(s: string, sep: string)
    requires ContainsNo(s, sep)
    ensures ContainsNo(Strip(s), sep)
  {
    var i := SkipSpaces(s, 0);
    var j := DropTrailing(s, i, |s|);
    SliceContainsNo(s, sep, i, j);
  }

  /**
   * `Strip` is characterised by what it returns: padding a trimmed string with whitespace on
   * either side and stripping gives the trimmed string back.
   */
  lemma {:induction false} StripOfPadded(a: string, t: string, b: string)
    requires AllSpace(a) && AllSpace(b) && Trimmed(t)
    ensures Strip(a + t + b) == t
  {
    var s := a + t + b;
    var i := SkipSpaces(s, 0);
    var j := DropTrailing(s, i, |s|);
    if t == [] {
      assert AllSpace(s) by {
        forall k | 0 <= k < |s| ensures IsSpace(s[k]) {
          if k < |a| { assert s[k] == a[k]; } else { assert s[k] == b[k - |a|]; }
        }
      }
      assert i == |s|;
    } else {
      assert s[|a|] == t[0];
      assert i == |a|;
      assert s[|a| + |t| - 1] == t[|t| - 1];
      assert j == |a| + |t|;
      assert s[i..j] == t;
    }
  }

  /** Stripping twice is stripping once. */
  lemma StripIdempotent(s: string)
    ensures Strip(Strip(s)) == Strip(s)
  {
    StripOfPadded([], Strip(s), []);
    assert [] + Strip(s) + [] == Strip(s);
  }
}
