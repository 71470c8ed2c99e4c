/**
 * The Python string operations the pipeline relies on: str.strip(), str.lower(),
 * str.upper(), str.find(), str.rfind() and the `in` substring test.
 * Strings are sequences of code points, as Python's str is.
 */
module Text {
  import opened Wrappers

  /** The characters Python's str.isspace() accepts, which str.strip() removes. */
  predicate IsSpace(c: char) {
    || ('\t' <= c <= '\r')
    || ('\U{1c}' <= c <= '\U{1f}')
    || c == ' '
    || c == '\U{85}'
    || c == '\U{a0}'
    || c == '\U{1680}'
    || ('\U{2000}' <= c <= '\U{200a}')
    || c == '\U{2028}'
    || c == '\U{2029}'
    || c == '\U{202f}'
    || c == '\U{205f}'
    || c == '\U{3000}'
  }

  predicate AllSpace(s: string) {
    forall i :: 0 <= i < |s| ==> IsSpace(s[i])
  }

  /** A string that str.strip() leaves as it is: empty, or neither end is whitespace. */
  predicate IsStripped(s: string) {
    s == [] || (!IsSpace(s[0]) && !IsSpace(s[|s| - 1]))
  }

  /** Number of leading whitespace characters. */
  function LeadingSpaces(s: string): (n: nat)
    ensures n <= |s|
  {
    if |s| == 0 || !IsSpace(s[0]) then 0 else 1 + LeadingSpaces(s[1..])
  }

  /** The leading run is whitespace and ends at the first visible character. */
  lemma {:induction false} LeadingSpacesSpec(s: string)
    ensures AllSpace(s[..LeadingSpaces(s)])
    ensures LeadingSpaces(s) < |s| ==> !IsSpace(s[LeadingSpaces(s)])
  {
    if |s| > 0 && IsSpace(s[0]) {
      LeadingSpacesSpec(s[1..]);
      var m := LeadingSpaces(s[1..]);
      assert s[1..][..m] == s[1..m + 1];
      var p := s[..m + 1];
      forall i | 0 <= i < |p| ensures IsSpace(p[i]) {
        if i > 0 {
          assert p[i] == s[1..][..m][i - 1];
        }
      }
    }
  }

  /** Number of trailing whitespace characters. */
  function TrailingSpaces(s: string): (n: nat)
    ensures n <= |s|
  {
    if |s| == 0 || !IsSpace(s[|s| - 1]) then 0 else 1 + TrailingSpaces(s[..|s| - 1])
  }

  /** The trailing run is whitespace and starts after the last visible character. */
  lemma {:induction false} TrailingSpacesSpec(s: string)
    ensures AllSpace(s[|s| - TrailingSpaces(s)..])
    ensures TrailingSpaces(s) < |s| ==> !IsSpace(s[|s| - TrailingSpaces(s) - 1])
  {
    if |s| > 0 && IsSpace(s[|s| - 1]) {
      var u := s[..|s| - 1];
      TrailingSpacesSpec(u);
      var m := TrailingSpaces(u);
      assert u[|u| - m..] == s[|s| - 1 - m..|s| - 1];
      var p := s[|s| - 1 - m..];
      forall i | 0 <= i < |p| ensures IsSpace(p[i]) {
        if i < m {
          assert p[i] == u[|u| - m..][i];
        }
      }
    }
  }

  /** The bounds [lo, hi) of what str.strip() keeps. */
  function StripStart(s: string): (lo: nat)
    ensures lo <= |s|
  {
    LeadingSpaces(s)
  }

  function StripEnd(s: string): (hi: nat)
    ensures StripStart(s) <= hi <= |s|
  {
    var lo := LeadingSpaces(s);
    if lo == |s| then |s|
    else
      var t := TrailingSpaces(s);
      LeadingSpacesSpec(s);
      TrailingSpacesSpec(s);
      assert forall i :: |s| - t <= i < |s| ==> IsSpace(s[i]) by {
        forall i | |s| - t <= i < |s| ensures IsSpace(s[i]) {
          assert s[|s| - t..][i - (|s| - t)] == s[i];
        }
      }
      assert t < |s| - lo;
      |s| - t
  }

  /** Python's s.strip(): the slice of `s` between its leading and trailing whitespace. */
  function Strip(s: string): string {
    s[StripStart(s)..StripEnd(s)]
  }

  /**
   * What str.strip() promises: the result has no whitespace at either end, everything
   * removed is whitespace, and the result is empty exactly when `s` is all whitespace.
   */
  lemma StripProperties(s: string)
    ensures IsStripped(Strip(s))
    ensures AllSpace(s[..StripStart(s)]) && AllSpace(s[StripEnd(s)..])
    ensures Strip(s) == [] <==> AllSpace(s)
  {
    var lo, hi := StripStart(s), StripEnd(s);
    LeadingSpacesSpec(s);
    TrailingSpacesSpec(s);
    if lo == |s| {
      assert s[..lo] == s;
    } else {
      assert !IsSpace(s[lo]);
      assert !IsSpace(s[hi - 1]);
      assert s[hi..] == s[|s| - TrailingSpaces(s)..];
    }
  }

  /** str.strip() changes nothing on a string that is already stripped. */
  lemma {:induction false} StripStripped(s: string)
    requires IsStripped(s)
    ensures Strip(s) == s
  {
    if s != [] {
      assert LeadingSpaces(s) == 0;
      assert TrailingSpaces(s) == 0;
    }
  }

  /** `t` is a contiguous slice of `s`. */
  ghost predicate IsSliceOf(t: string, s: string) {
    exists lo, hi :: 0 <= lo <= hi <= |s| && t == s[lo..hi]
  }

  /** Stripping a slice of `text` leaves a slice of `text`. */
  lemma StripSliceOf(t: string, text: string, a: nat)
    requires a + |t| <= |text| && t == text[a..a + |t|]
    ensures IsSliceOf(Strip(t), text)
  {
    var lo, hi := StripStart(t), StripEnd(t);
    assert t[lo..hi] == text[a + lo..a + hi] by {
      forall k | 0 <= k < hi - lo ensures t[lo..hi][k] == text[a + lo..a + hi][k] {
        assert t[lo + k] == text[a + lo + k];
      }
    }
  }

  /** ASCII case mapping; other characters are left unchanged. */
  function LowerChar(c: char): char {
    if 'A' <= c <= 'Z' then (c as int + 32) as char else c
  }

  function UpperChar(c: char): char {
    if 'a' <= c <= 'z' then (c as int - 32) as char else c
  }

  /** str.lower() on ASCII letters: same length, character by character. */
  function Lower(s: string): (r: string)
    ensures |r| == |s|
  {
    seq(|s|, i requires 0 <= i < |s| => LowerChar(s[i]))
  }

  function Upper(s: string): (r: string)
    ensures |r| == |s|
  {
    seq(|s|, i requires 0 <= i < |s| => UpperChar(s[i]))
  }

  /** Lower-casing keeps whitespace where it was. */
  lemma LowerKeepsSpace(s: string)
    ensures forall i :: 0 <= i < |s| ==> (IsSpace(Lower(s)[i]) <==> IsSpace(s[i]))
  {
  }

  /** Lower-casing commutes with taking a suffix. */
  lemma LowerSuffix(s: string, i: nat)
    requires i <= |s|
    ensures Lower(s[i..]) == Lower(s)[i..]
  {
  }

  lemma PrefixOfSuffix(s: string, i: nat, n: nat)
    requires i + n <= |s|
    ensures s[i..][..n] == s[i..i + n]
  {
  }

  /** `pat` occurs in `s` starting at index `i`. */
  predicate OccursAt(s: string, pat: string, i: int) {
    0 <= i && i + |pat| <= |s| && s[i..i + |pat|] == pat
  }

  function FindFrom(s: string, pat: string, from: nat): (r: Option<nat>)
    requires from <= |s| + 1
    ensures r.Some? ==> from <= r.value && OccursAt(s, pat, r.value)
    ensures r.Some? ==> forall j :: from <= j < r.value ==> !OccursAt(s, pat, j)
    ensures r.None? ==> forall j :: from <= j ==> !OccursAt(s, pat, j)
    decreases |s| + 1 - from
  {
    if from + |pat| > |s| then None
    else if s[from..from + |pat|] == pat then Some(from)
    else FindFrom(s, pat, from + 1)
  }

  /** Python's s.find(pat): the lowest index where `pat` occurs, None for -1. */
  function Find(s: string, pat: string): (r: Option<nat>)
    ensures r.Some? ==> OccursAt(s, pat, r.value)
    ensures r.Some? ==> forall j :: 0 <= j < r.value ==> !OccursAt(s, pat, j)
    ensures r.None? <==> forall j :: !OccursAt(s, pat, j)
  {
    FindFrom(s, pat, 0)
  }

  function RFindBelow(s: string, pat: string, bound: int): (r: Option<nat>)
    requires bound <= |s|
    ensures r.Some? ==> r.value <= bound && OccursAt(s, pat, r.value)
    ensures r.Some? ==> forall j :: r.value < j <= bound ==> !OccursAt(s, pat, j)
    ensures r.None? ==> forall j :: j <= bound ==> !OccursAt(s, pat, j)
    decreases bound + 1
  {
    if bound < 0 then None
    else if OccursAt(s, pat, bound) then Some(bound)
    else RFindBelow(s, pat, bound - 1)
  }

  /** Python's s.rfind(pat): the highest index where `pat` occurs, None for -1. */
  function RFind(s: string, pat: string): (r: Option<nat>)
    ensures r.Some? ==> OccursAt(s, pat, r.value)
    ensures r.Some? ==> forall j :: r.value < j ==> !OccursAt(s, pat, j)
    ensures r.None? <==> forall j :: !OccursAt(s, pat, j)
  {
    RFindBelow(s, pat, |s|)
  }

  /** An occurrence with none after it is what rfind returns. */
  lemma RFindIs(s: string, pat: string, i: nat)
    requires OccursAt(s, pat, i) && forall j :: i < j ==> !OccursAt(s, pat, j)
    ensures RFind(s, pat) == Some(i)
  {
  }

  /** Python's `pat in s`. */
  predicate Contains(s: string, pat: string) {
    Find(s, pat).Some?
  }
  /** Code-point order of strings: the order of Python's `<=` on str and of a database
      "C" collation. */
  predicate StrLe(a: string, b: string) {
    if a == [] then true
    else if b == [] then false
    else if a[0] != b[0] then a[0] < b[0]
    else StrLe(a[1..], b[1..])
  }

  lemma {:induction false} StrLeTotal(a: string, b: string)
    ensures StrLe(a, b) || StrLe(b, a)
  {
    if a != [] && b != [] && a[0] == b[0] {
      StrLeTotal(a[1..], b[1..]);
    }
  }

  lemma {:induction false} StrLeTransitive(a: string, b: string, c: string)
    requires StrLe(a, b) && StrLe(b, c)
    ensures StrLe(a, c)
  {
    if a != [] && b != [] && c != [] && a[0] == b[0] && b[0] == c[0] {
      StrLeTransitive(a[1..], b[1..], c[1..]);
    }
  }

  /** Two strings each not above the other are equal. */
  lemma {:induction false} StrLeAntisymmetric(a: string, b: string)
    requires StrLe(a, b) && StrLe(b, a)
    ensures a == b
  {
    if a != [] && b != [] {
      StrLeAntisymmetric(a[1..], b[1..]);
      assert a == [a[0]] + a[1..] && b == [b[0]] + b[1..];
    }
  }
}
