/**
 * The few `java.lang.String` operations the script runner relies on:
 * `trim`, `startsWith`, `endsWith` and `lastIndexOf(String)`.
 * A Java string is modelled as a `seq<char>` of Unicode scalar values.
 */
module JavaText {

  /** `String.trim` treats every character whose code is at most U+0020 as blank. */
  predicate IsBlank(c: char) {
    c <= ' '
  }

  /** Index of the first non-blank character (or |s| when there is none). */
  function LeadingEnd(s: string): (n: nat)
    ensures n <= |s|
    ensures forall k :: 0 <= k < n ==> IsBlank(s[k])
    ensures n < |s| ==> !IsBlank(s[n])
  {
    if |s| == 0 || !IsBlank(s[0]) then 0 else 1 + LeadingEnd(s[1..])
  }

  /** Index just past the last non-blank character (or 0 when there is none). */
  function TrailingStart(s: string): (m: nat)
    ensures m <= |s|
    ensures forall k :: m <= k < |s| ==> IsBlank(s[k])
    ensures m > 0 ==> !IsBlank(s[m - 1])
  {
    if |s| == 0 || !IsBlank(s[|s| - 1]) then |s| else TrailingStart(s[..|s| - 1])
  }

  /**
   * `String.trim`: the slice of `s` left after removing blank characters at
   * both ends. The result is the unique slice with only blanks around it and
   * a non-blank character at each of its ends; it is empty exactly when `s`
   * is all blanks.
   */
  function Trim(s: string): (r: string)
    ensures LeadingEnd(s) + |r| <= |s|
    ensures r == s[LeadingEnd(s)..LeadingEnd(s) + |r|]
    ensures forall k :: LeadingEnd(s) + |r| <= k < |s| ==> IsBlank(s[k])
    ensures r == [] <==> forall k :: 0 <= k < |s| ==> IsBlank(s[k])
    ensures r != [] ==> !IsBlank(r[0]) && !IsBlank(r[|r| - 1])
  {
    var i, j := LeadingEnd(s), TrailingStart(s);
    if i == |s| then "" else s[i..j]
  }

  predicate StartsWith(s: string, prefix: string) {
    |prefix| <= |s| && s[..|prefix|] == prefix
  }

  predicate EndsWith(s: string, suffix: string) {
    |suffix| <= |s| && s[|s| - |suffix|..] == suffix
  }

  /** `needle` occurs in `s` starting at index `i`. */
  predicate OccursAt(s: string, needle: string, i: int) {
    0 <= i && i + |needle| <= |s| && s[i..i + |needle|] == needle
  }

  /** The greatest index `<= k` at which `needle` occurs in `s`, or -1. */
  function LastIndexAtOrBelow(s: string, needle: string, k: int): (r: int)
    requires k >= -1
    ensures -1 <= r <= k
    ensures r >= 0 ==> OccursAt(s, needle, r)
    ensures forall j :: r < j <= k ==> !OccursAt(s, needle, j)
    decreases k + 1
  {
    if k < 0 then -1
    else if OccursAt(s, needle, k) then k
    else LastIndexAtOrBelow(s, needle, k - 1)
  }

  /**
   * `String.lastIndexOf(String)`: the start of the last occurrence of
   * `needle` in `s`, or -1 when it does not occur. An empty needle occurs at
   * every index, so its last occurrence is `|s|`.
   */
  function LastIndexOf(s: string, needle: string): (r: int)
    ensures -1 <= r <= |s|
    ensures r >= 0 ==> OccursAt(s, needle, r)
    ensures r == -1 <==> forall j :: 0 <= j <= |s| ==> !OccursAt(s, needle, j)
    ensures forall j :: r < j <= |s| ==> !OccursAt(s, needle, j)
  {
    LastIndexAtOrBelow(s, needle, |s|)
  }

  /** An empty needle's last occurrence is the end of the string. */
  lemma LastIndexOfEmpty(s: string)
    ensures LastIndexOf(s, "") == |s|
  {
    assert OccursAt(s, "", |s|);
  }
}
