/** First-occurrence search and splitting of strings on a separator.  The
    location parser cuts its input four times, each time at the FIRST
    occurrence of a separator ("://", "/", "@" and "."), and every cut is this
    one function. */
module Strings {
  import opened Wrappers

  /** `sep` occurs in `s` starting at index `i`. */
  predicate OccursAt(s: string, sep: string, i: nat) {
    i + |sep| <= |s| && s[i..i + |sep|] == sep
  }

  /** `sep` occurs somewhere in `s`. */
  ghost predicate Contains(s: string, sep: string) {
    exists i: nat :: OccursAt(s, sep, i)
  }

  /** The least index at or after `from` where `sep` occurs in `s`, if any. */
  function FindFrom(s: string, sep: string, from: nat): (r: Option<nat>)
    decreases |s| - from
    ensures r.Some? ==> from <= r.value && OccursAt(s, sep, r.value)
    ensures r.Some? ==> forall j: nat :: from <= j < r.value ==> !OccursAt(s, sep, j)
    ensures r.None? ==> forall j: nat :: from <= j ==> !OccursAt(s, sep, j)
  {
    if |s| < from + |sep| then None
    else if s[from..from + |sep|] == sep then Some(from)
    else FindFrom(s, sep, from + 1)
  }

  /** Splits `s` at the first occurrence of `sep`: the part before it and,
      when `sep` occurs, the part after it.  Without an occurrence the whole
      of `s` is the first part. */
  function SplitFirst(s: string, sep: string): (r: (string, Option<string>))
    ensures r.1.None? ==> r.0 == s && forall j: nat :: !OccursAt(s, sep, j)
    ensures r.1.Some? ==> s == r.0 + sep + r.1.value && OccursAt(s, sep, |r.0|)
    ensures r.1.Some? ==> forall j: nat :: j < |r.0| ==> !OccursAt(s, sep, j)
  {
    match FindFrom(s, sep, 0)
    case None => (s, None)
    case Some(i) => (s[..i], Some(s[i + |sep|..]))
  }

  /** A separator whose first character is missing from the first `n`
      characters of `s` cannot start among them. */
  lemma NoOccurrenceBefore(s: string, sep: string, n: nat)
    requires 0 < |sep| && n <= |s| && sep[0] !in s[..n]
    ensures forall j: nat :: j < n ==> !OccursAt(s, sep, j)
  {
  }

  /** When `s` is `a + sep + b` and `sep` starts nowhere inside `a`, the split
      is exactly `a` and `b`. */
  lemma SplitFirstAt(s: string, sep: string, a: string, b: string)
    requires s == a + sep + b
    requires forall j: nat :: j < |a| ==> !OccursAt(s, sep, j)
    ensures SplitFirst(s, sep) == (a, Some(b))
  {
    assert s[|a|..|a| + |sep|] == sep;
    assert OccursAt(s, sep, |a|);
    var r := SplitFirst(s, sep);
    assert r.1.Some?;
    assert |r.0| == |a|;
    assert r.0 == s[..|a|] == a;
    assert r.1.value == s[|a| + |sep|..] == b;
  }

  /** A separator character that does not occur in `s` leaves `s` whole. */
  lemma SplitFirstAbsent(s: string, c: char)
    requires c !in s
    ensures SplitFirst(s, [c]) == (s, None)
  {
  }

  /** A single-character separator found nowhere in `s` is not in `s`. */
  lemma AbsentCharNotIn(s: string, c: char)
    requires forall j: nat :: !OccursAt(s, [c], j)
    ensures c !in s
  {
    forall i | 0 <= i < |s|
      ensures s[i] != c
    {
      assert OccursAt(s, [c], i) <==> s[i..i + 1] == [c];
      assert s[i..i + 1] == [s[i]];
    }
  }

  /** The part before the first occurrence of a character separator does
      not contain that character. */
  lemma SplitFirstPrefixFree(s: string, c: char)
    ensures c !in SplitFirst(s, [c]).0
  {
    var r := SplitFirst(s, [c]);
    if r.1.None? {
      AbsentCharNotIn(s, c);
    } else {
      forall i | 0 <= i < |r.0|
        ensures r.0[i] != c
      {
        assert !OccursAt(s, [c], i);
        assert s[i..i + 1] == [s[i]];
        assert s[i] == r.0[i];
      }
    }
  }
}
