/** The string searches the chat parser relies on, with their contracts. */
module Strings {
  import opened Wrappers

  predicate IsSpace(c: char) {
    c == ' ' || '\t' <= c <= '\r'
  }

  predicate AllSpace(s: string) {
    forall i :: 0 <= i < |s| ==> IsSpace(s[i])
  }

  /** The first position at or after i that is not a space, or the end. */
  function SkipSpaces(s: string, i: nat): (r: nat)
    requires i <= |s|
    ensures i <= r <= |s| && AllSpace(s[i..r]) && (r < |s| ==> !IsSpace(s[r]))
    decreases |s| - i
  {
    if i < |s| && IsSpace(s[i]) then
      var r := SkipSpaces(s, i + 1);
      assert s[i..r] == [s[i]] + s[i + 1..r];
      r
    else i
  }

  /** The end of s without the spaces that follow position lo. */
  function TrimEnd(s: string, lo: nat, hi: nat): (r: nat)
    requires lo <= hi <= |s|
    ensures lo <= r <= hi && (forall i :: r <= i < hi ==> IsSpace(s[i])) && (r > lo ==> !IsSpace(s[r - 1]))
  {
    if hi > lo && IsSpace(s[hi - 1]) then TrimEnd(s, lo, hi - 1) else hi
  }

  /** Spaces removed at both ends. */
  function Strip(s: string): (r: string)
    ensures r != [] ==> !IsSpace(r[0]) && !IsSpace(r[|r| - 1])
    ensures r == [] <==> AllSpace(s)
  {
    var lo := SkipSpaces(s, 0);
    var r := s[lo..TrimEnd(s, lo, |s|)];
    assert AllSpace(s) <==> lo == |s| by {
      assert s[0..lo] == s[..lo];
      if lo == |s| {
        assert s[0..lo] == s;
      }
    }
    r
  }

  predicate OccursAt(s: string, pattern: string, i: int) {
    0 <= i && i + |pattern| <= |s| && s[i..i + |pattern|] == pattern
  }

  /** The first occurrence at or after `from`. */
  function Find(s: string, pattern: string, from: nat): (r: Option<nat>)
    requires from <= |s|
    ensures r.Some? ==> from <= r.value && OccursAt(s, pattern, r.value)
    ensures r.Some? ==> forall i :: from <= i < r.value ==> !OccursAt(s, pattern, i)
    ensures r.None? ==> forall i :: from <= i ==> !OccursAt(s, pattern, i)
    decreases |s| - from
  {
    if OccursAt(s, pattern, from) then Some(from)
    else if from < |s| then Find(s, pattern, from + 1)
    else None
  }

  /** The suffix of s at i is a non-empty prefix of `stop`. */
  predicate PartialAt(s: string, stop: string, i: int) {
    0 <= i < |s| && |s| - i <= |stop| && s[i..] == stop[..|s| - i]
  }

  /** Suffixes of s of length at most k that begin `stop`: the longest one's start. */
  function PartialStopFrom(s: string, stop: string, k: nat): (r: Option<nat>)
    requires k <= |stop|
    ensures r.Some? ==> PartialAt(s, stop, r.value) && |s| - r.value <= k
    ensures r.Some? ==> forall i :: |s| - k <= i < r.value ==> !PartialAt(s, stop, i)
    ensures r.None? ==> forall i :: |s| - k <= i ==> !PartialAt(s, stop, i)
  {
    if k == 0 then None
    else if k <= |s| && s[|s| - k..] == stop[..k] then Some(|s| - k)
    else PartialStopFrom(s, stop, k - 1)
  }

  /** The earliest start of a suffix of s that is a non-empty prefix of `stop`. */
  function PartialStop(s: string, stop: string): (r: Option<nat>)
    ensures r.Some? ==> PartialAt(s, stop, r.value) && forall i :: 0 <= i < r.value ==> !PartialAt(s, stop, i)
    ensures r.None? ==> forall i :: 0 <= i ==> !PartialAt(s, stop, i)
  {
    PartialStopFrom(s, stop, |stop|)
  }

  lemma TwoSlices(s: string, i: nat, j: nat, k: nat)
    requires i <= j <= k <= |s|
    ensures s[i..k] == s[i..j] + s[j..k]
  {
  }

  lemma ThreeSlices(s: string, i: nat, j: nat, k: nat, l: nat)
    requires i <= j <= k <= l <= |s|
    ensures s[i..l] == s[i..j] + s[j..k] + s[k..l]
  {
    TwoSlices(s, i, j, k);
    TwoSlices(s, i, k, l);
  }

  lemma SliceOfPrefix(p: string, w: string, i: nat, j: nat)
    requires p <= w && i <= j <= |p|
    ensures p[i..j] == w[i..j]
  {
    forall k | 0 <= k < j - i
      ensures p[i..j][k] == w[i..j][k]
    {
      assert p[i + k] == w[i + k];
    }
  }

  /** A slice that a longer text extends. */
  lemma SliceExtends(p: string, w: string, i: nat, j: nat, k: nat)
    requires p <= w && i <= j <= |p| && j <= k <= |w|
    ensures p[i..j] <= w[i..k]
  {
    TwoSlices(w, i, j, k);
    SliceOfPrefix(p, w, i, j);
  }

  lemma OccursShift(s: string, lo: nat, hi: nat, pattern: string, i: int)
    requires lo <= hi <= |s|
    ensures OccursAt(s[lo..hi], pattern, i) ==> OccursAt(s, pattern, lo + i)
  {
    var u, n := s[lo..hi], |pattern|;
    if OccursAt(u, pattern, i) {
      forall k | 0 <= k < n
        ensures s[lo + i..lo + i + n][k] == pattern[k]
      {
        assert u[i..i + n][k] == u[i + k];
      }
    }
  }

  lemma PartialWhole(s: string, stop: string, i: int)
    requires PartialAt(s, stop, i)
    ensures |s| - i == |stop| ==> OccursAt(s, stop, i)
  {
    assert stop[..|stop|] == stop;
  }

  // ---------------------------------------------------------------- growing inputs

  lemma {:induction false} SkipSpacesGrows(p: string, w: string, i: nat)
    requires p <= w && i <= |p|
    ensures SkipSpaces(p, i) <= SkipSpaces(w, i)
    ensures SkipSpaces(p, i) < |p| ==> SkipSpaces(w, i) == SkipSpaces(p, i)
    decreases |p| - i
  {
    if i < |p| && IsSpace(p[i]) {
      SkipSpacesGrows(p, w, i + 1);
    }
  }

  /** Stripping never retracts text when more arrives. */
  lemma StripGrows(u: string, v: string)
    requires u <= v
    ensures Strip(u) <= Strip(v)
  {
    hide SkipSpaces, TrimEnd, AllSpace;
    SkipSpacesGrows(u, v, 0);
    var lo := SkipSpaces(u, 0);
    if lo < |u| {
      TrimEndGrows(u, v, lo);
      SliceExtends(u, v, lo, TrimEnd(u, lo, |u|), TrimEnd(v, lo, |v|));
    } else {
      assert Strip(u) == [];
    }
  }

  lemma TrimEndGrows(u: string, v: string, lo: nat)
    requires u <= v && lo <= |u|
    ensures TrimEnd(u, lo, |u|) <= TrimEnd(v, lo, |v|)
  {
    hide TrimEnd;
    var e := TrimEnd(u, lo, |u|);
    if e > lo {
      assert v[e - 1] == u[e - 1];
    }
  }

  lemma OccursInLonger(p: string, w: string, pattern: string, i: nat)
    requires p <= w
    ensures OccursAt(p, pattern, i) ==> OccursAt(w, pattern, i)
    ensures OccursAt(w, pattern, i) && i + |pattern| <= |p| ==> OccursAt(p, pattern, i)
  {
    if i + |pattern| <= |p| {
      SliceOfPrefix(p, w, i, i + |pattern|);
    }
  }

  /** A first occurrence stays the first one. */
  lemma FindStays(p: string, w: string, pattern: string, from: nat)
    requires p <= w && from <= |p| && Find(p, pattern, from).Some?
    ensures Find(w, pattern, from) == Find(p, pattern, from)
  {
    hide Find;
    var e, e' := Find(p, pattern, from).value, Find(w, pattern, from);
    OccursInLonger(p, w, pattern, e);
    if e'.Some? && e'.value < e {
      OccursInLonger(p, w, pattern, e'.value);
    }
  }

  /** Whatever begins the pattern at the end of w already ends, or lies beyond, p. */
  lemma PartialInShorter(p: string, w: string, stop: string, i: nat)
    requires p <= w && i < |p|
    requires PartialAt(w, stop, i) || (OccursAt(w, stop, i) && i + |stop| > |p|)
    ensures PartialAt(p, stop, i)
  {
    forall k | 0 <= k < |p| - i
      ensures p[i..][k] == stop[..|p| - i][k]
    {
      assert p[i..][k] == p[i + k] == w[i + k];
      if PartialAt(w, stop, i) {
        assert w[i..][k] == stop[..|w| - i][k] == stop[k];
      } else {
        assert w[i..i + |stop|][k] == w[i + k];
      }
    }
  }
}
