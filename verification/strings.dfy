/**
  The handful of Kotlin string functions the library relies on, over `seq<char>`:
  `startsWith`, `endsWith`, `indexOf`, `substringBefore`, `removePrefix`,
  `removeSuffix`, `replaceBefore`, `replace`, `isBlank` and `lowercase`.
 */
module Strings {
  import opened Wrappers

  predicate StartsWith(s: string, prefix: string) {
    |prefix| <= |s| && s[..|prefix|] == prefix
  }

  predicate EndsWith(s: string, suffix: string) {
    |suffix| <= |s| && s[|s| - |suffix|..] == suffix
  }

  /** `pat` occurs in `s` at position `i`. */
  predicate OccursAt(s: string, pat: string, i: nat) {
    i + |pat| <= |s| && s[i..i + |pat|] == pat
  }

  predicate Contains(s: string, pat: string) {
    exists i: nat :: i <= |s| && OccursAt(s, pat, i)
  }

  /** Kotlin `indexOf(pat)`: the first position where `pat` occurs, if any. */
  function IndexOf(s: string, pat: string): (r: Option<nat>)
    ensures r.Some? ==> OccursAt(s, pat, r.value)
    ensures r.Some? ==> forall j: nat :: j < r.value ==> !OccursAt(s, pat, j)
    ensures r.None? ==> forall j: nat :: !OccursAt(s, pat, j)
  {
    IndexFrom(s, pat, 0)
  }

  function IndexFrom(s: string, pat: string, from: nat): (r: Option<nat>)
    requires forall j: nat :: j < from ==> !OccursAt(s, pat, j)
    ensures r.Some? ==> from <= r.value && OccursAt(s, pat, r.value)
    ensures r.Some? ==> forall j: nat :: j < r.value ==> !OccursAt(s, pat, j)
    ensures r.None? ==> forall j: nat :: !OccursAt(s, pat, j)
    decreases |s| + 1 - from
  {
    if from + |pat| > |s| then
      assert forall j: nat :: from <= j ==> !OccursAt(s, pat, j);
      None
    else if s[from..from + |pat|] == pat then Some(from)
    else IndexFrom(s, pat, from + 1)
  }

  /** Kotlin `substringBefore(delimiter)`: everything before the first occurrence, or `s` itself. */
  function SubstringBefore(s: string, delimiter: string): (r: string)
    ensures IndexOf(s, delimiter).None? ==> r == s
    ensures IndexOf(s, delimiter).Some? ==> r == s[..IndexOf(s, delimiter).value]
  {
    match IndexOf(s, delimiter)
    case None => s
    case Some(i) => s[..i]
  }

  /** Kotlin `removePrefix(prefix)`. */
  function RemovePrefix(s: string, prefix: string): string {
    if StartsWith(s, prefix) then s[|prefix|..] else s
  }

  /** Kotlin `removeSuffix(suffix)`. */
  function RemoveSuffix(s: string, suffix: string): string {
    if EndsWith(s, suffix) then s[..|s| - |suffix|] else s
  }

  /**
    Kotlin `replaceBefore(delimiter, replacement)`: the part before the first
    occurrence of `delimiter` is replaced; without an occurrence `s` is returned.
   */
  function ReplaceBefore(s: string, delimiter: string, replacement: string): string {
    match IndexOf(s, delimiter)
    case None => s
    case Some(i) => replacement + s[i..]
  }

  /**
    Kotlin `replace(pat, rep)` for a non-empty `pat`: every
    occurrence, scanning left to right without overlap, is replaced.
   */
  function ReplaceAll(s: string, pat: string, rep: string): string
    requires |pat| > 0
    decreases |s|
  {
    if |s| == 0 then []
    else if StartsWith(s, pat) then rep + ReplaceAll(s[|pat|..], pat, rep)
    else [s[0]] + ReplaceAll(s[1..], pat, rep)
  }

  /** Kotlin `Char.isWhitespace()` on the JVM: `Character.isWhitespace` or `Character.isSpaceChar`. */
  predicate IsWhitespace(c: char) {
    || c == ' ' || c == '\t' || c == '\n' || c == '\U{000B}' || c == '\U{000C}' || c == '\r'
    || ('\U{001C}' <= c <= '\U{001F}')
    || c == '\U{00A0}' || c == '\U{1680}' || ('\U{2000}' <= c <= '\U{200A}')
    || c == '\U{2028}' || c == '\U{2029}' || c == '\U{202F}' || c == '\U{205F}' || c == '\U{3000}'
  }

  /** Kotlin `isBlank()`: empty or only whitespace. */
  predicate IsBlank(s: string) {
    forall i :: 0 <= i < |s| ==> IsWhitespace(s[i])
  }

  /** `hasWhitespaces()`: at least one whitespace character. */
  predicate HasWhitespaces(s: string) {
    exists i :: 0 <= i < |s| && IsWhitespace(s[i])
  }

  /** Kotlin `lowercase()`, restricted to the ASCII letters. */
  function Lowercase(s: string): (r: string)
    ensures |r| == |s|
    ensures forall i :: 0 <= i < |s| ==> ('A' <= s[i] <= 'Z' ==> r[i] as int == s[i] as int + 32)
    ensures forall i :: 0 <= i < |s| ==> (!('A' <= s[i] <= 'Z') ==> r[i] == s[i])
  {
    if |s| == 0 then []
    else [LowerChar(s[0])] + Lowercase(s[1..])
  }

  function LowerChar(c: char): char {
    if 'A' <= c <= 'Z' then (c as int + 32) as char else c
  }

  // ---------------------------------------------------------------------------
  // Facts about the functions above used across the model.
  // ---------------------------------------------------------------------------

  lemma StartsWithConcat(a: string, b: string)
    ensures StartsWith(a + b, a)
  {
    assert (a + b)[..|a|] == a;
  }

  lemma EndsWithConcat(a: string, b: string)
    ensures EndsWith(a + b, b)
  {
    assert (a + b)[|a + b| - |b|..] == b;
  }

  /** Two suffixes of one string: the shorter is a suffix of the longer. */
  lemma SuffixOfSuffix(s: string, a: string, b: string)
    requires EndsWith(s, a) && EndsWith(s, b) && |a| <= |b|
    ensures EndsWith(b, a)
  {
    assert b[|b| - |a|..] == s[|s| - |a|..];
  }

  /** A single character that does not occur in `s` has no occurrence in `s`. */
  lemma NotInNoOccurrence(s: string, c: char)
    requires c !in s
    ensures forall j: nat :: !OccursAt(s, [c], j)
  {
    forall j: nat | j + 1 <= |s|
      ensures !OccursAt(s, [c], j)
    {
      assert s[j..j + 1] == [s[j]];
    }
  }

  /** The first occurrence of a one-character delimiter after a delimiter-free prefix. */
  lemma IndexAfterFreePrefix(p: string, c: char, rest: string)
    requires c !in p
    ensures IndexOf(p + [c] + rest, [c]) == Some(|p|)
  {
    var s := p + [c] + rest;
    assert OccursAt(s, [c], |p|) by {
      assert s[|p|..|p| + 1] == [c];
    }
    forall j: nat | j < |p|
      ensures !OccursAt(s, [c], j)
    {
      assert s[j..j + 1] == [p[j]];
    }
  }

  /** A pattern whose first character is absent from `s` does not occur in it. */
  lemma LeadAbsentNoOccurrence(s: string, pat: string)
    requires |pat| > 0 && pat[0] !in s
    ensures IndexOf(s, pat).None?
  {
    forall j: nat | j + |pat| <= |s|
      ensures !OccursAt(s, pat, j)
    {
      assert s[j..j + |pat|][0] == s[j];
    }
  }

  /** The first occurrence of a pattern after a prefix free of the pattern's first character. */
  lemma IndexAfterLeadFreePrefix(p: string, pat: string, rest: string)
    requires |pat| > 0 && pat[0] !in p
    ensures IndexOf(p + pat + rest, pat) == Some(|p|)
  {
    var s := p + pat + rest;
    assert OccursAt(s, pat, |p|) by {
      assert s[|p|..|p| + |pat|] == pat;
    }
    forall j: nat | j < |p|
      ensures !OccursAt(s, pat, j)
    {
      if j + |pat| <= |s| {
        assert s[j..j + |pat|][0] == p[j];
      }
    }
  }

  /** A blank concatenation has a blank tail. */
  lemma BlankTail(a: string, b: string)
    requires IsBlank(a + b)
    ensures IsBlank(b)
  {
    forall i | 0 <= i < |b|
      ensures IsWhitespace(b[i])
    {
      assert (a + b)[|a| + i] == b[i];
    }
  }

  lemma IndexOfSingle(s: string, c: char)
    ensures IndexOf(s, [c]).None? <==> c !in s
  {
    if c !in s {
      NotInNoOccurrence(s, c);
    } else {
      var k :| 0 <= k < |s| && s[k] == c;
      assert s[k..k + 1] == [c];
      assert OccursAt(s, [c], k);
    }
  }
}
