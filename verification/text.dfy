/** Character classes and string operations shared by the extractors. */
module Text {
  import opened Wrappers

  /** `[a-zA-Z]` */
  predicate IsAsciiLetter(c: char) { 'a' <= c <= 'z' || 'A' <= c <= 'Z' }

  /** `[a-z]` */
  predicate IsLowerLetter(c: char) { 'a' <= c <= 'z' }

  /** `[A-Z]` */
  predicate IsUpperLetter(c: char) { 'A' <= c <= 'Z' }

  /** `[0-9]`, the ASCII part of `\d` */
  predicate IsDigit(c: char) { '0' <= c <= '9' }

  /** `\w`: ASCII letters and digits, the underscore, and the letters of Latin-1
      (U+00AA, U+00B5, U+00BA and U+00C0..U+00FF except U+00D7 and U+00F7). */
  predicate IsWordChar(c: char) {
    || IsAsciiLetter(c) || IsDigit(c) || c == '_'
    || c == '\U{AA}' || c == '\U{B5}' || c == '\U{BA}'
    || ('\U{C0}' <= c <= '\U{FF}' && c != '\U{D7}' && c != '\U{F7}')
  }

  /** `\s` for a Python `str` pattern (the characters for which `str.isspace()` holds). */
  predicate IsSpace(c: char) {
    || '\t' <= c <= '\r' || '\U{1C}' <= c <= ' '
    || c == '\U{85}' || c == '\U{A0}' || c == '\U{1680}'
    || '\U{2000}' <= c <= '\U{200A}' || c == '\U{2028}' || c == '\U{2029}'
    || c == '\U{202F}' || c == '\U{205F}' || c == '\U{3000}'
  }

  /** `[^\s]` */
  predicate IsNonSpace(c: char) { !IsSpace(c) }

  /** Every character of s[lo..hi] is in the class p. */
  ghost predicate All(s: string, lo: int, hi: int, p: char -> bool) {
    0 <= lo <= hi <= |s| && forall x {:trigger s[x]} :: lo <= x < hi ==> p(s[x])
  }

  /** The end of the longest run of characters of class p that starts at i:
      what a greedy `p*` consumes from position i. */
  function RunEnd(s: string, i: nat, p: char -> bool): (e: nat)
    requires i <= |s|
    ensures i <= e <= |s|
    ensures All(s, i, e, p)
    ensures e < |s| ==> !p(s[e])
    decreases |s| - i
  {
    if i < |s| && p(s[i]) then RunEnd(s, i + 1, p) else i
  }

  /** A run of class p from i that reaches x never ends before x. */
  lemma RunEndCovers(s: string, i: nat, x: int, p: char -> bool)
    requires i <= |s| && All(s, i, x, p)
    ensures x <= RunEnd(s, i, p)
  {
  }

  /** A run of class p from i that stops at a character outside p ends exactly there. */
  lemma RunEndExact(s: string, i: nat, x: int, p: char -> bool)
    requires i <= |s| && All(s, i, x, p) && (x == |s| || !p(s[x]))
    ensures RunEnd(s, i, p) == x
  {
    RunEndCovers(s, i, x, p);
  }

  /** Joins two adjacent ranges of the same class. */
  lemma AllConcat(s: string, lo: int, mid: int, hi: int, p: char -> bool)
    requires All(s, lo, mid, p) && All(s, mid, hi, p)
    ensures All(s, lo, hi, p)
  {
    forall x | lo <= x < hi ensures p(s[x]) {
      if x < mid { assert lo <= x < mid; } else { assert mid <= x < hi; }
    }
  }

  /** A range of class p, cut out of its string, is all of class p. */
  lemma AllSlice(s: string, lo: int, hi: int, p: char -> bool)
    requires All(s, lo, hi, p)
    ensures All(s[lo..hi], 0, hi - lo, p)
  {
    forall x | 0 <= x < hi - lo ensures p(s[lo..hi][x]) {
      assert s[lo..hi][x] == s[lo + x];
    }
  }

  /** A range of class p extends by one character exactly when that character is in p. */
  lemma AllStep(s: string, lo: int, hi: int, p: char -> bool)
    requires All(s, lo, hi, p) && hi < |s|
    ensures All(s, lo, hi + 1, p) <==> p(s[hi])
  {
  }

  /** pat occurs in s at position i. */
  ghost predicate OccursAt(s: string, pat: string, i: int) {
    0 <= i && i + |pat| <= |s| && s[i..i + |pat|] == pat
  }

  /** Python's `pat in s` and C#'s `s.Contains(pat)`, computed by trying each start in turn. */
  predicate Contains(s: string, pat: string)
    decreases |s|
  {
    |pat| <= |s| && (s[..|pat|] == pat || Contains(s[1..], pat))
  }

  /** The scan agrees with the definition of a substring: some start position holds pat. */
  lemma {:induction false} ContainsIffOccurs(s: string, pat: string)
    ensures Contains(s, pat) <==> exists i :: OccursAt(s, pat, i)
    decreases |s|
  {
    if |pat| <= |s| {
      if s[..|pat|] == pat {
        assert OccursAt(s, pat, 0);
      } else {
        ContainsIffOccurs(s[1..], pat);
        if Contains(s[1..], pat) {
          var i :| OccursAt(s[1..], pat, i);
          assert s[1..][i..i + |pat|] == s[i + 1..i + 1 + |pat|];
          assert OccursAt(s, pat, i + 1);
        }
        if i :| OccursAt(s, pat, i) {
          assert i != 0;
          assert s[1..][i - 1..i - 1 + |pat|] == s[i..i + |pat|];
          assert OccursAt(s[1..], pat, i - 1);
        }
      }
    } else {
      if i :| OccursAt(s, pat, i) {
        assert false;
      }
    }
  }

  /** A pattern holding a character the text lacks does not occur in it. */
  lemma MissingCharNotContained(s: string, pat: string, c: char)
    requires c in pat && c !in s
    ensures !Contains(s, pat)
  {
    ContainsIffOccurs(s, pat);
  }

  /** ASCII lower-casing of one character. */
  function LowerChar(c: char): (r: char)
    ensures !IsUpperLetter(r)
    ensures IsUpperLetter(c) ==> r as int == c as int + 32
    ensures !IsUpperLetter(c) ==> r == c
  {
    if IsUpperLetter(c) then (c as int + 32) as char else c
  }

  /** `str.lower()` / `ToLower()`, restricted to ASCII letters. */
  function Lower(s: string): (r: string)
    ensures |r| == |s|
    ensures forall i :: 0 <= i < |r| ==> !IsUpperLetter(r[i])
    ensures forall i :: 0 <= i < |s| && !IsUpperLetter(s[i]) ==> r[i] == s[i]
    ensures forall i :: 0 <= i < |s| && IsUpperLetter(s[i]) ==> r[i] as int == s[i] as int + 32
  {
    if |s| == 0 then [] else [LowerChar(s[0])] + Lower(s[1..])
  }

  /** A half-open range s[start..end] of a scanned text. */
  datatype Span = Span(start: nat, end: nat)

  /** The search loop of a regex engine: `attempt` is tried at each start position
      `from`, `from + 1`, ... below n, and the first attempt that succeeds gives the match,
      from its start to the end the attempt returns. */
  function Leftmost(attempt: nat -> Option<nat>, n: nat, from: nat): (r: Option<Span>)
    ensures r.Some? ==> from <= r.value.start < n && attempt(r.value.start) == Some(r.value.end)
    decreases n - from
  {
    if from >= n then None
    else match attempt(from)
      case Some(j) => Some(Span(from, j))
      case None => Leftmost(attempt, n, from + 1)
  }

  /** The search stops at the first start where the attempt succeeds, and finds nothing only
      when every attempt fails. */
  lemma {:induction false} LeftmostSpec(attempt: nat -> Option<nat>, n: nat, from: nat)
    ensures var r := Leftmost(attempt, n, from);
      && (r.Some? ==> forall i :: from <= i < r.value.start ==> attempt(i).None?)
      && (r.None? ==> forall i :: from <= i < n ==> attempt(i).None?)
    decreases n - from
  {
    if from < n && attempt(from).None? {
      LeftmostSpec(attempt, n, from + 1);
    }
  }
}
