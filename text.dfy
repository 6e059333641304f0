/**
 * The .NET string operations the UI code relies on: `string.Trim`,
 * `IsNullOrEmpty`, `IsNullOrWhiteSpace`, `StartsWith`, `IndexOf(char, start)`
 * and `IndexOf(string, StringComparison.OrdinalIgnoreCase)`.
 *
 * A C# string that may be `null` is an `Option<string>`.
 */
module Text {
  import opened Common

  predicate IsNullOrEmpty(s: Option<string>)
  {
    s.None? || |s.value| == 0
  }

  /** `char.IsWhiteSpace`: the Unicode space separators plus the control spaces. */
  predicate IsWhiteSpace(c: char)
  {
    || c == ' ' || ('\t' <= c <= '\r')
    || c == '\U{85}' || c == '\U{A0}' || c == '\U{1680}'
    || ('\U{2000}' <= c <= '\U{200A}')
    || c == '\U{2028}' || c == '\U{2029}' || c == '\U{202F}' || c == '\U{205F}' || c == '\U{3000}'
  }

  predicate AllWhiteSpace(s: string)
  {
    forall i :: 0 <= i < |s| ==> IsWhiteSpace(s[i])
  }

  predicate IsNullOrWhiteSpace(s: Option<string>)
  {
    s.None? || AllWhiteSpace(s.value)
  }

  /** The first index at or after `k` that is not white space, or `|s|`. */
  function SkipLeading(s: string, k: nat): (lo: nat)
    requires k <= |s|
    ensures k <= lo <= |s|
    ensures forall i :: k <= i < lo ==> IsWhiteSpace(s[i])
    ensures lo == |s| || !IsWhiteSpace(s[lo])
    decreases |s| - k
  {
    if k < |s| && IsWhiteSpace(s[k]) then SkipLeading(s, k + 1) else k
  }

  /** Scanning back from `hi` but not past `lo`: the end of the text before trailing white space. */
  function SkipTrailing(s: string, lo: nat, hi: nat): (e: nat)
    requires lo <= hi <= |s|
    ensures lo <= e <= hi
    ensures forall i :: e <= i < hi ==> IsWhiteSpace(s[i])
    ensures e == lo || !IsWhiteSpace(s[e - 1])
    decreases hi
  {
    if lo < hi && IsWhiteSpace(s[hi - 1]) then SkipTrailing(s, lo, hi - 1) else hi
  }

  /** `Trim()`: the part of `s` between its leading and its trailing white space. */
  function Trim(s: string): string
  {
    var lo := SkipLeading(s, 0);
    s[lo..SkipTrailing(s, lo, |s|)]
  }

  /** What `Trim` promises: a contiguous part of `s`, no white space at either end, only white space cut. */
  lemma TrimIsTightInfix(s: string)
    ensures var r := Trim(s);
      && (r == [] || (!IsWhiteSpace(r[0]) && !IsWhiteSpace(r[|r| - 1])))
      && exists lo :: 0 <= lo && lo + |r| <= |s| && r == s[lo..lo + |r|]
           && AllWhiteSpace(s[..lo]) && AllWhiteSpace(s[lo + |r|..])
  {
    var lo := SkipLeading(s, 0);
    var hi := SkipTrailing(s, lo, |s|);
    assert Trim(s) == s[lo..hi];
    assert AllWhiteSpace(s[..lo]);
    assert AllWhiteSpace(s[hi..]);
  }

  /** A string made only of white space trims to the empty string, and only such a string does. */
  lemma TrimEmptyIffWhiteSpace(s: string)
    ensures Trim(s) == [] <==> AllWhiteSpace(s)
  {
    var lo := SkipLeading(s, 0);
    var hi := SkipTrailing(s, lo, |s|);
    if Trim(s) == [] {
      assert hi == lo;
      assert lo == |s|;
    }
  }

  predicate StartsWith(s: string, prefix: string)
  {
    |prefix| <= |s| && s[..|prefix|] == prefix
  }

  /** `char.ToUpperInvariant` restricted to ASCII letters (what OrdinalIgnoreCase folds here). */
  function FoldCase(c: char): char
  {
    if 'a' <= c <= 'z' then (c as int - 32) as char else c
  }

  /** `needle` occurs in `hay` at `i`, comparing characters ignoring case. */
  predicate MatchesAtIgnoreCase(hay: string, needle: string, i: int)
  {
    0 <= i && i + |needle| <= |hay| &&
    forall k :: 0 <= k < |needle| ==> FoldCase(hay[i + k]) == FoldCase(needle[k])
  }

  /** `needle` occurs somewhere in `hay`, ignoring case. */
  ghost predicate OccursIgnoreCase(hay: string, needle: string)
  {
    exists i :: MatchesAtIgnoreCase(hay, needle, i)
  }

  /** `hay.IndexOf(needle, start, OrdinalIgnoreCase)`: the first match at or after `start`, or -1. */
  function IndexOfIgnoreCase(hay: string, needle: string, start: nat): (r: int)
    ensures r == -1 || (start <= r && MatchesAtIgnoreCase(hay, needle, r))
    ensures forall j :: start <= j && (r == -1 || j < r) ==> !MatchesAtIgnoreCase(hay, needle, j)
    decreases |hay| - start
  {
    if start + |needle| > |hay| then -1
    else if MatchesAtIgnoreCase(hay, needle, start) then start
    else IndexOfIgnoreCase(hay, needle, start + 1)
  }

  /** `s.IndexOf(c, start)`: the first position at or after `start` holding `c`, or -1. */
  function IndexOfChar(s: string, c: char, start: nat): (r: int)
    requires start <= |s|
    ensures r == -1 || (start <= r < |s| && s[r] == c)
    ensures forall j :: start <= j < |s| && (r == -1 || j < r) ==> s[j] != c
    decreases |s| - start
  {
    if start == |s| then -1
    else if s[start] == c then start
    else IndexOfChar(s, c, start + 1)
  }
}
