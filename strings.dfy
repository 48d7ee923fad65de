/** String helpers shared by the backend and the client code:
    ASCII case folding (the case-insensitive comparisons of `icontains`,
    `str.lower`, `String.toLowerCase` and the `i` regex flag), Python's
    `str.strip()`, `str.find` and `str.endswith`. */
module Strings {
  import opened Wrappers

  /** ASCII lower-casing of one character. */
  function LowerChar(c: char): (r: char)
    ensures 'A' <= c <= 'Z' ==> r as int == c as int + 32
    ensures !('A' <= c <= 'Z') ==> r == c
  {
    if 'A' <= c <= 'Z' then (c as int + 32) as char else c
  }

  function Lower(s: string): (r: string)
    ensures |r| == |s|
    ensures forall i :: 0 <= i < |s| ==> r[i] == LowerChar(s[i])
  {
    seq(|s|, i requires 0 <= i < |s| => LowerChar(s[i]))
  }

  lemma LowerSlice(s: string, i: nat, j: nat)
    requires i <= j <= |s|
    ensures Lower(s[i..j]) == Lower(s)[i..j]
  {
  }

  lemma LowerConcat(a: string, b: string)
    ensures Lower(a + b) == Lower(a) + Lower(b)
  {
    assert forall k :: 0 <= k < |a + b| ==> Lower(a + b)[k] == (Lower(a) + Lower(b))[k];
  }

  /** The characters Python's `str.isspace()` accepts, by code point. */
  predicate IsSpace(c: char) {
    c == ' ' || ('\t' <= c <= '\r') || ('\U{1C}' <= c <= '\U{1F}')
    || c == '\U{85}' || c == '\U{A0}' || c == '\U{1680}'
    || ('\U{2000}' <= c <= '\U{200A}') || c == '\U{2028}' || c == '\U{2029}'
    || c == '\U{202F}' || c == '\U{205F}' || c == '\U{3000}'
  }

  predicate AllSpace(s: string) {
    forall i :: 0 <= i < |s| ==> IsSpace(s[i])
  }

  /** The first index at or after `i` that does not hold whitespace, or
      `|s|` when there is none. */
  function SkipSpace(s: string, i: nat): (n: nat)
    requires i <= |s|
    ensures i <= n <= |s|
    ensures forall k :: i <= k < n ==> IsSpace(s[k])
    ensures n < |s| ==> !IsSpace(s[n])
    decreases |s| - i
  {
    if i < |s| && IsSpace(s[i]) then SkipSpace(s, i + 1) else i
  }

  /** Walking back from `j` to no further than `lo`, the end of the last
      non-whitespace character. */
  function SkipSpaceBack(s: string, lo: nat, j: nat): (m: nat)
    requires lo <= j <= |s|
    ensures lo <= m <= j
    ensures forall k :: m <= k < j ==> IsSpace(s[k])
    ensures lo < m ==> !IsSpace(s[m - 1])
    decreases j - lo
  {
    if lo < j && IsSpace(s[j - 1]) then SkipSpaceBack(s, lo, j - 1) else j
  }

  /** Number of leading whitespace characters. */
  function LeadingSpace(s: string): (n: nat)
    ensures n <= |s|
    ensures forall k :: 0 <= k < n ==> IsSpace(s[k])
    ensures n < |s| ==> !IsSpace(s[n])
  {
    SkipSpace(s, 0)
  }

  /** Python's `str.strip()` with no argument: the text between the
      leading and the trailing whitespace. */
  function Strip(s: string): (r: string)
    ensures LeadingSpace(s) + |r| <= |s|
    ensures r == s[LeadingSpace(s)..LeadingSpace(s) + |r|]
    ensures forall k :: LeadingSpace(s) + |r| <= k < |s| ==> IsSpace(s[k])
    ensures r != [] ==> !IsSpace(r[0]) && !IsSpace(r[|r| - 1])
    ensures r == [] <==> AllSpace(s)
  {
    var a := LeadingSpace(s);
    var m := SkipSpaceBack(s, a, |s|);
    assert a < m ==> !IsSpace(s[a]);
    s[a..m]
  }

  /** Past the leading whitespace, `Strip` keeps exactly the text up to the
      last non-whitespace character. */
  lemma StripExacto(s: string, a: nat, n: nat)
    requires a == LeadingSpace(s) && 0 < n && a + n <= |s|
    requires !IsSpace(s[a + n - 1]) && forall k :: a + n <= k < |s| ==> IsSpace(s[k])
    ensures Strip(s) == s[a..a + n]
  {
    var r := Strip(s);
    assert r != [] by {
      assert !IsSpace(s[a + n - 1]);
    }
    assert r[|r| - 1] == s[a + |r| - 1];
  }

  /** `" abc ".strip()` is `"abc"`. */
  lemma StripEjemplo()
    ensures Strip(" abc ") == "abc"
  {
    var s := " abc ";
    assert SkipSpace(s, 1) == 1;
    StripExacto(s, 1, 3);
    assert s[1..4] == "abc";
  }

  lemma StripNoSpace(s: string)
    requires s != [] && !IsSpace(s[0]) && !IsSpace(s[|s| - 1])
    ensures Strip(s) == s
  {
    StripExacto(s, 0, |s|);
  }

  /** `t` occurs in `s` at index `i`. */
  predicate MatchAt(s: string, t: string, i: int) {
    0 <= i && i + |t| <= |s| && s[i..i + |t|] == t
  }

  predicate Contains(s: string, t: string) {
    exists i :: 0 <= i <= |s| && MatchAt(s, t, i)
  }

  /** Case-insensitive containment, as Django's `icontains` and the
      lowered `str.find` use it. */
  predicate ContainsCi(s: string, t: string) {
    Contains(Lower(s), Lower(t))
  }

  /** Python's `s.find(t, from)`: the first index at or after `from`
      where `t` occurs. */
  function FindFrom(s: string, t: string, from: nat): (r: Option<nat>)
    requires from <= |s|
    decreases |s| - from
    ensures r.Some? ==> from <= r.value <= |s| - |t| && MatchAt(s, t, r.value)
    ensures r.Some? ==> forall j :: from <= j < r.value ==> !MatchAt(s, t, j)
    ensures r.None? ==> forall j :: from <= j ==> !MatchAt(s, t, j)
  {
    if from + |t| > |s| then None
    else if s[from..from + |t|] == t then Some(from)
    else if from == |s| then None
    else FindFrom(s, t, from + 1)
  }

  /** Python's `s.find(t)`, returning None for -1. */
  function Find(s: string, t: string): (r: Option<nat>)
    ensures r.Some? ==> MatchAt(s, t, r.value) && r.value + |t| <= |s|
    ensures r.Some? ==> forall j :: 0 <= j < r.value ==> !MatchAt(s, t, j)
    ensures r.None? <==> !Contains(s, t)
  {
    FindFrom(s, t, 0)
  }

  predicate EndsWith(s: string, suffix: string) {
    |suffix| <= |s| && s[|s| - |suffix|..] == suffix
  }
}
