/** The string operations the list filters and the forms rely on.
    JavaScript's `toLowerCase`, `trim` and the regular-expression class `\s`
    are modelled on ASCII only: upper-case letters A-Z and the six ASCII
    white-space characters. */
module Text {

  /** The white-space characters `trim` removes and `\s` matches (ASCII part). */
  predicate IsSpace(c: char) {
    c == ' ' || c == '\t' || c == '\n' || c == '\r' || c == '\U{0B}' || c == '\U{0C}'
  }

  predicate AllSpace(s: string) {
    forall i :: 0 <= i < |s| ==> IsSpace(s[i])
  }

  predicate NoSpace(s: string) {
    forall i :: 0 <= i < |s| ==> !IsSpace(s[i])
  }

  function LowerChar(c: char): char {
    if 'A' <= c <= 'Z' then (c as int + 32) as char else c
  }

  /** `s.toLowerCase()`. */
  function ToLower(s: string): string {
    seq(|s|, i requires 0 <= i < |s| => LowerChar(s[i]))
  }

  predicate IsPrefix(p: string, s: string) {
    |p| <= |s| && s[..|p|] == p
  }

  /** `f` occurs in `s` starting at index `i`. */
  ghost predicate OccursAt(s: string, f: string, i: int) {
    0 <= i && i + |f| <= |s| && s[i..i + |f|] == f
  }

  /** `s.includes(f)`: try every start position from the left. */
  function Contains(s: string, f: string): bool
    decreases |s|
  {
    if IsPrefix(f, s) then true
    else if s == [] then false
    else Contains(s[1..], f)
  }

  /** `Contains` finds `f` exactly when `f` occurs somewhere in `s`. */
  lemma {:induction false} ContainsIff(s: string, f: string)
    ensures Contains(s, f) <==> exists i :: OccursAt(s, f, i)
    decreases |s|
  {
    if IsPrefix(f, s) {
      assert OccursAt(s, f, 0);
    } else if s == [] {
      assert |f| > 0;
      assert forall i :: !OccursAt(s, f, i);
    } else {
      ContainsIff(s[1..], f);
      forall i | OccursAt(s[1..], f, i) ensures OccursAt(s, f, i + 1) {
        assert s[1..][i..i + |f|] == s[i + 1..i + 1 + |f|];
      }
      forall i | OccursAt(s, f, i) ensures OccursAt(s[1..], f, i - 1) {
        assert i != 0;
        assert s[1..][i - 1..i - 1 + |f|] == s[i..i + |f|];
      }
    }
  }

  /** `s.toLowerCase().includes(f.toLowerCase())`. */
  predicate ContainsIgnoreCase(s: string, f: string) {
    Contains(ToLower(s), ToLower(f))
  }

  /** The empty filter is found in every string. */
  lemma EmptyIsEverywhere(s: string)
    ensures ContainsIgnoreCase(s, "")
  {
    assert ToLower("") == "";
  }

  /** Filtering is case-insensitive: lower-casing the filter first changes nothing. */
  lemma IgnoreCaseOfFilter(s: string, f: string)
    ensures ContainsIgnoreCase(s, ToLower(f)) == ContainsIgnoreCase(s, f)
  {
    assert ToLower(ToLower(f)) == ToLower(f);
  }

  /** The index of the first character at or after `k` that is not white space (`|s|` if none). */
  function SkipSpace(s: string, k: nat): (r: nat)
    requires k <= |s|
    ensures k <= r <= |s|
    ensures forall m :: k <= m < r ==> IsSpace(s[m])
    ensures r < |s| ==> !IsSpace(s[r])
    decreases |s| - k
  {
    if k < |s| && IsSpace(s[k]) then SkipSpace(s, k + 1) else k
  }

  /** The end of `s[lo..j]` once its trailing white space is dropped. */
  function SkipSpaceBack(s: string, lo: nat, j: nat): (r: nat)
    requires lo <= j <= |s|
    ensures lo <= r <= j
    ensures forall m :: r <= m < j ==> IsSpace(s[m])
    ensures r > lo ==> !IsSpace(s[r - 1])
  {
    if j > lo && IsSpace(s[j - 1]) then SkipSpaceBack(s, lo, j - 1) else j
  }

  /** `s.trim()`: the result is the part of `s` between a white-space prefix
      and a white-space suffix, and it neither starts nor ends with white space. */
  function Trim(s: string): (r: string)
    ensures exists i, j :: 0 <= i <= j <= |s| && r == s[i..j] && AllSpace(s[..i]) && AllSpace(s[j..])
    ensures r != [] ==> !IsSpace(r[0]) && !IsSpace(r[|r| - 1])
    ensures r == [] <==> AllSpace(s)
  {
    var i := SkipSpace(s, 0);
    var j := SkipSpaceBack(s, i, |s|);
    TrimRuns(s, i, |s| - j);
    s[i..j]
  }

  /** A white-space run of length `i` at the start and one of length `b` at the
      end of what follows it. */
  lemma TrimRuns(s: string, i: nat, b: nat)
    requires i <= |s| && b <= |s| - i
    requires forall k :: 0 <= k < i ==> IsSpace(s[k])
    requires i < |s| ==> !IsSpace(s[i])
    requires forall k :: |s| - b <= k < |s| ==> IsSpace(s[k])
    requires b < |s| - i ==> !IsSpace(s[|s| - b - 1])
    ensures AllSpace(s[..i]) && AllSpace(s[|s| - b..])
    ensures i < |s| - b ==> !IsSpace(s[i]) && !IsSpace(s[|s| - b - 1])
    ensures i == |s| - b <==> AllSpace(s)
  {
    assert forall k :: 0 <= k < i ==> s[..i][k] == s[k];
    var t := s[|s| - b..];
    assert forall k :: 0 <= k < |t| ==> t[k] == s[|s| - b + k];
  }

  /** Trimming twice is trimming once. */
  lemma TrimIdempotent(s: string)
    ensures Trim(Trim(s)) == Trim(s)
  {
    var r := Trim(s);
    if r != [] {
      assert SkipSpace(r, 0) == 0;
      assert SkipSpaceBack(r, 0, |r|) == |r|;
      assert r[0..|r|] == r;
    }
  }
}
