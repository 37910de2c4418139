/** String primitives the worker relies on: ASCII case mapping, prefix tests,
    substring search (`String.prototype.includes`) and the first-occurrence
    replacement that `String.prototype.replace` performs with a string pattern. */
module Strings {

  datatype Option<T> = None | Some(value: T)

  /** ASCII lower-casing of one character; every other character is left alone. */
  function LowerChar(c: char): (r: char)
    ensures 'A' <= c <= 'Z' ==> r as int == c as int + 32
    ensures !('A' <= c <= 'Z') ==> r == c
  {
    if 'A' <= c <= 'Z' then (c as int + 32) as char else c
  }

  /** ASCII lower-casing of a string (`toLowerCase` restricted to ASCII letters). */
  function Lower(s: string): (r: string)
    ensures |r| == |s|
    ensures forall i :: 0 <= i < |s| ==> r[i] == LowerChar(s[i])
  {
    seq(|s|, i requires 0 <= i < |s| => LowerChar(s[i]))
  }

  /** Case-sensitive prefix test (`startsWith`, or a regex `^literal` without
      the i flag), one character at a time. */
  predicate StartsWith(s: string, p: string)
    decreases |p|
  {
    |p| <= |s| && (|p| == 0 || (s[0] == p[0] && StartsWith(s[1..], p[1..])))
  }

  /** `StartsWith` agrees with the slice formulation of a prefix. */
  lemma {:induction false} StartsWithSlice(s: string, p: string)
    ensures StartsWith(s, p) <==> |p| <= |s| && s[..|p|] == p
    decreases |p|
  {
    if |p| > 0 && |p| <= |s| {
      StartsWithSlice(s[1..], p[1..]);
      assert s[..|p|] == [s[0]] + s[1..][..|p| - 1];
      assert p == [p[0]] + p[1..];
    }
  }

  /** A prefix fixes each of the first `|p|` characters. */
  lemma {:induction false} StartsWithAt(s: string, p: string, i: nat)
    requires i < |p|
    ensures StartsWith(s, p) ==> i < |s| && s[i] == p[i]
    decreases i
  {
    if i > 0 && StartsWith(s, p) {
      StartsWithAt(s[1..], p[1..], i - 1);
    }
  }

  /** A string starts with its own prefixes. */
  lemma StartsWithConcat(a: string, b: string)
    ensures StartsWith(a + b, a)
  {
    StartsWithSlice(a + b, a);
    assert (a + b)[..|a|] == a;
  }

  /** Two prefixes that differ at a position they share cannot both hold. */
  lemma StartsWithDiffers(s: string, a: string, b: string, i: nat)
    requires i < |a| && i < |b| && a[i] != b[i]
    ensures StartsWith(s, a) ==> !StartsWith(s, b)
  {
    StartsWithAt(s, a, i);
    StartsWithAt(s, b, i);
  }

  /** `pat` occurs in `s` at index `i`. */
  predicate OccursAt(s: string, pat: string, i: nat) {
    i + |pat| <= |s| && s[i..i + |pat|] == pat
  }

  /** `s.includes(pat)`: true for the empty pattern, as in JavaScript. */
  predicate Contains(s: string, pat: string) {
    exists i: nat | i <= |s| :: OccursAt(s, pat, i)
  }

  /** The index of the first occurrence of `pat` in `s`, scanning from `from`. */
  function FindFrom(s: string, pat: string, from: nat): (r: Option<nat>)
    requires from <= |s|
    ensures r.Some? ==> from <= r.value && OccursAt(s, pat, r.value)
    ensures r.Some? ==> forall j: nat :: from <= j < r.value ==> !OccursAt(s, pat, j)
    ensures r.None? ==> forall j: nat :: from <= j ==> !OccursAt(s, pat, j)
    decreases |s| - from
  {
    if OccursAt(s, pat, from) then Some(from)
    else if from == |s| then None
    else FindFrom(s, pat, from + 1)
  }

  /** `s.indexOf(pat)`, with `None` for -1. */
  function IndexOf(s: string, pat: string): (r: Option<nat>)
    ensures r.Some? <==> Contains(s, pat)
    ensures r.Some? ==> OccursAt(s, pat, r.value)
    ensures r.Some? ==> forall j: nat :: j < r.value ==> !OccursAt(s, pat, j)
  {
    FindFrom(s, pat, 0)
  }

  /** `s.replace(pat, rep)` with a string pattern: only the first occurrence
      is replaced; without an occurrence the string is returned unchanged. */
  function ReplaceFirst(s: string, pat: string, rep: string): (r: string)
  {
    match IndexOf(s, pat)
    case None => s
    case Some(i) => s[..i] + rep + s[i + |pat|..]
  }

  /** What `ReplaceFirst` does, stated against the occurrences of `pat`:
      nothing changes when `pat` is absent; otherwise the earliest occurrence,
      and only that one, is swapped for `rep`. */
  lemma ReplaceFirstSpec(s: string, pat: string, rep: string)
    ensures !Contains(s, pat) ==> ReplaceFirst(s, pat, rep) == s
    ensures Contains(s, pat) ==>
      exists i: nat ::
        OccursAt(s, pat, i) &&
        (forall j: nat :: j < i ==> !OccursAt(s, pat, j)) &&
        ReplaceFirst(s, pat, rep) == s[..i] + rep + s[i + |pat|..]
  {
    var r := IndexOf(s, pat);
    if r.Some? {
      var i := r.value;
      assert OccursAt(s, pat, i);
    }
  }
}
