/** `regex_url` / `RegexUrl`: the first match, in document order, of the pattern
    `\b(https?://(?:www\.)?[a-zA-Z0-9-]+(?:\.[a-z]{2,})+(?:[^\s]*)?)\b`.

    The scanner below does what a backtracking engine does with this pattern. The host class
    has no '.', so the greedy host part always ends at the end of its run and must be followed
    by `.` and two lower-case letters. Whatever the greedy label loop takes, the final
    `[^\s]*` could have taken too: it first runs to the next white space and then gives back
    one character at a time until a word boundary is reached. So an attempt succeeds exactly
    when a first label exists, and it ends at the last word boundary before the next white
    space. The match found this way is the longest one from the leftmost start. */
module UrlPattern {
  import opened Wrappers
  import opened Text

  /** `[a-zA-Z0-9-]` */
  predicate IsHostChar(c: char) { IsAsciiLetter(c) || IsDigit(c) || c == '-' }

  /** `\b` at position i: exactly one of the characters around i is a word character. */
  predicate IsBoundary(s: string, i: int) {
    0 <= i <= |s| && ((0 < i && IsWordChar(s[i - 1])) != (i < |s| && IsWordChar(s[i])))
  }

  /** s[i..a] is `https?://`. */
  ghost predicate SchemeAt(s: string, i: int, a: int) {
    0 <= i && a <= |s| &&
    ((a == i + 7 && s[i..a] == "http://") || (a == i + 8 && s[i..a] == "https://"))
  }

  /** The host starts at h after the optional `www\.` that follows the scheme ending at a. */
  ghost predicate HostStart(s: string, a: int, h: int) {
    h == a || (h == a + 4 && 0 <= a && h <= |s| && s[a..h] == "www.")
  }

  /** s[t..p] is `(?:\.[a-z]{2,})+`: one or more labels, each a dot and two or more lower-case letters. */
  ghost predicate Labels(s: string, t: int, p: int)
    decreases p - t
  {
    && 0 <= t < p <= |s| && s[t] == '.'
    && exists m {:trigger All(s, t + 1, m, IsLowerLetter)} :: t + 3 <= m <= p && All(s, t + 1, m, IsLowerLetter) && (m == p || Labels(s, m, p))
  }

  /** s[i..j] is matched by the pattern with the scheme ending at a, the host at s[h..t] and
      the labels at s[t..p]. */
  ghost predicate UrlShape(s: string, i: int, a: int, h: int, t: int, p: int, j: int) {
    && IsBoundary(s, i) && SchemeAt(s, i, a) && HostStart(s, a, h)
    && h < t && All(s, h, t, IsHostChar) && Labels(s, t, p)
    && All(s, p, j, IsNonSpace) && IsBoundary(s, j)
  }

  /** s[i..j] is a match of the pattern. */
  ghost predicate UrlMatch(s: string, i: int, j: int) {
    exists a, h, t, p :: UrlShape(s, i, a, h, t, p, j)
  }

  /** s[i..j] is the match a regex search returns: no match starts before i and none from i is longer. */
  ghost predicate FirstUrl(s: string, i: int, j: int) {
    && UrlMatch(s, i, j)
    && (forall i', j' :: 0 <= i' < i ==> !UrlMatch(s, i', j'))
    && (forall j' :: j < j' ==> !UrlMatch(s, i, j'))
  }

  /** `https?://` at i, with the optional `s` tried first: the position after the scheme. */
  function SchemeEnd(s: string, i: nat): (r: Option<nat>)
    requires i <= |s|
    ensures r.Some? ==> SchemeAt(s, i, r.value)
  {
    if i + 8 <= |s| && s[i..i + 8] == "https://" then Some(i + 8)
    else if i + 7 <= |s| && s[i..i + 7] == "http://" then Some(i + 7)
    else None
  }

  /** `www\.` at a. */
  predicate HasWww(s: string, a: nat) {
    a + 4 <= |s| && s[a..a + 4] == "www."
  }

  /** `[a-zA-Z0-9-]+\.[a-z]{2}` from h: the end of the host and of the shortest first label. */
  function HostLabelEnd(s: string, h: nat): Option<nat>
    requires h <= |s|
  {
    var t := RunEnd(s, h, IsHostChar);
    if h < t && t + 3 <= |s| && s[t] == '.' && IsLowerLetter(s[t + 1]) && IsLowerLetter(s[t + 2])
    then Some(t + 3) else None
  }

  /** The backtracking of `[^\s]*` followed by `\b`: from q, give back one character at a time
      until a word boundary is reached. The last label ends in a word character before p, so
      one is reached at or after p. */
  function Backtrack(s: string, p: nat, q: nat): (r: nat)
    requires 1 <= p <= q <= |s|
    requires IsWordChar(s[p - 1])
    requires q == |s| || !IsWordChar(s[q])
    ensures p <= r <= q && IsBoundary(s, r)
    ensures forall x :: r < x <= q ==> !IsBoundary(s, x)
    decreases q
  {
    if IsBoundary(s, q) then q else Backtrack(s, p, q - 1)
  }

  /** Where the host starts after the scheme that ends at a: after `www.` when a host and
      a first label follow it, since the engine tries the optional group first; at a
      otherwise. */
  function HostFrom(s: string, a: nat): (h: nat)
    requires a <= |s|
    ensures h <= |s| && HostStart(s, a, h)
    ensures h == a + 4 <==> HasWww(s, a) && HostLabelEnd(s, a + 4).Some?
  {
    if HasWww(s, a) && HostLabelEnd(s, a + 4).Some? then a + 4 else a
  }

  /** One attempt of the engine at start position i: the end of the match, or None. */
  function UrlAt(s: string, i: nat): (r: Option<nat>)
    requires i <= |s|
    ensures r.Some? ==> i < r.value <= |s|
  {
    if !IsBoundary(s, i) then None
    else match SchemeEnd(s, i)
      case None => None
      case Some(a) =>
        match HostLabelEnd(s, HostFrom(s, a))
        case None => None
        case Some(p) => Some(Backtrack(s, p, RunEnd(s, p, IsNonSpace)))
  }

  /** The labels hold no white space. */
  lemma {:induction false} LabelsNoSpace(s: string, t: int, p: int)
    requires Labels(s, t, p)
    ensures All(s, t, p, IsNonSpace)
    decreases p - t
  {
    var m :| t + 3 <= m <= p && All(s, t + 1, m, IsLowerLetter) && (m == p || Labels(s, m, p));
    assert All(s, t, m, IsNonSpace) by {
      forall x | t <= x < m ensures IsNonSpace(s[x]) {
        if x > t { assert IsLowerLetter(s[x]); }
      }
    }
    if m < p {
      LabelsNoSpace(s, m, p);
      AllConcat(s, t, m, p, IsNonSpace);
    }
  }

  /** A match holds no white space. */
  lemma UrlShapeNoSpace(s: string, i: int, a: int, h: int, t: int, p: int, j: int)
    requires UrlShape(s, i, a, h, t, p, j)
    ensures All(s, i, j, IsNonSpace)
  {
    assert All(s, i, a, IsNonSpace) by {
      forall x | i <= x < a ensures IsNonSpace(s[x]) {
        assert s[x] == s[i..a][x - i];
      }
    }
    assert All(s, a, h, IsNonSpace) by {
      forall x | a <= x < h ensures IsNonSpace(s[x]) {
        assert s[x] == s[a..h][x - a];
      }
    }
    assert All(s, h, t, IsNonSpace);
    LabelsNoSpace(s, t, p);
    AllConcat(s, i, a, h, IsNonSpace);
    AllConcat(s, i, h, t, IsNonSpace);
    AllConcat(s, i, t, p, IsNonSpace);
    AllConcat(s, i, p, j, IsNonSpace);
  }

  /** A dot and two lower-case letters form a single label. */
  lemma OneLabel(s: string, t: nat)
    requires t + 3 <= |s| && s[t] == '.' && IsLowerLetter(s[t + 1]) && IsLowerLetter(s[t + 2])
    ensures Labels(s, t, t + 3)
  {
    assert All(s, t + 1, t + 3, IsLowerLetter);
  }

  /** What the host-and-label step finds is a host followed by one label. */
  lemma HostLabelEndSound(s: string, h: nat)
    requires h <= |s| && HostLabelEnd(s, h).Some?
    ensures var p := HostLabelEnd(s, h).value;
      h < p - 3 && All(s, h, p - 3, IsHostChar) && Labels(s, p - 3, p)
  {
    OneLabel(s, RunEnd(s, h, IsHostChar));
  }

  /** What the final `[^\s]*\b` takes from p is non-space and ends at a boundary. */
  lemma TailSound(s: string, p: nat)
    requires 1 <= p <= |s| && IsWordChar(s[p - 1])
    ensures var j := Backtrack(s, p, RunEnd(s, p, IsNonSpace));
      All(s, p, j, IsNonSpace) && IsBoundary(s, j)
  {
    var q := RunEnd(s, p, IsNonSpace);
    var j := Backtrack(s, p, q);
    assert All(s, p, j, IsNonSpace) by {
      forall x | p <= x < j ensures IsNonSpace(s[x]) {
        assert p <= x < q;
      }
    }
  }

  /** What the attempt at i finds is a match. */
  lemma UrlAtSound(s: string, i: nat)
    requires i <= |s| && UrlAt(s, i).Some?
    ensures UrlMatch(s, i, UrlAt(s, i).value)
  {
    var a := SchemeEnd(s, i).value;
    var h := HostFrom(s, a);
    var p := HostLabelEnd(s, h).value;
    var j := UrlAt(s, i).value;
    HostLabelEndSound(s, h);
    TailSound(s, p);
    assert UrlShape(s, i, a, h, p - 3, p, j);
  }

  /** The scheme that a match starts with is the one the attempt recognises. */
  lemma SchemeEndOf(s: string, i: nat, a: int)
    requires i <= |s| && SchemeAt(s, i, a)
    ensures SchemeEnd(s, i) == Some(a)
  {
    if a == i + 7 {
      assert s[i + 4] == s[i..a][4] == ':';
      if i + 8 <= |s| {
        assert s[i..i + 8][4] == s[i + 4];
      }
    }
  }

  /** A host and first label at h make the host-and-label step from h succeed. */
  lemma HostLabelEndOf(s: string, h: int, t: int, p: int)
    requires 0 <= h < t && All(s, h, t, IsHostChar) && Labels(s, t, p)
    ensures HostLabelEnd(s, h) == Some(t + 3)
  {
    RunEndExact(s, h, t, IsHostChar);
    var m :| t + 3 <= m <= p && All(s, t + 1, m, IsLowerLetter) && (m == p || Labels(s, m, p));
    assert IsLowerLetter(s[t + 1]) && IsLowerLetter(s[t + 2]);
  }

  /** Every match that starts at i makes the attempt at i succeed, and ends no later. */
  lemma UrlAtLongest(s: string, i: nat, a: int, h: int, t: int, p: int, j: int)
    requires UrlShape(s, i, a, h, t, p, j)
    ensures UrlAt(s, i).Some? && j <= UrlAt(s, i).value
  {
    SchemeEndOf(s, i, a);
    HostLabelEndOf(s, h, t, p);
    if h == a + 4 {
      assert HasWww(s, a);
    }
    var p' := HostLabelEnd(s, HostFrom(s, a)).value;
    var w := RunEnd(s, p', IsNonSpace);
    UrlShapeNoSpace(s, i, a, h, t, p, j);
    if p' <= j {
      RunEndCovers(s, p', j, IsNonSpace);
    }
  }

  /** No match starts at i. */
  lemma UrlAtNone(s: string, i: nat)
    requires i <= |s| && UrlAt(s, i).None?
    ensures forall j :: !UrlMatch(s, i, j)
  {
    forall j, a, h, t, p | UrlShape(s, i, a, h, t, p, j) ensures false {
      UrlAtLongest(s, i, a, h, t, p, j);
    }
  }

  /** No match from i is longer than what the attempt at i finds. */
  lemma UrlAtMaximal(s: string, i: nat)
    requires i <= |s| && UrlAt(s, i).Some?
    ensures forall j :: UrlAt(s, i).value < j ==> !UrlMatch(s, i, j)
  {
    forall j, a, h, t, p | UrlShape(s, i, a, h, t, p, j) ensures j <= UrlAt(s, i).value {
      UrlAtLongest(s, i, a, h, t, p, j);
    }
  }

  /** The attempt at each start position of the text; none succeeds past its end. */
  function UrlAttempt(s: string): nat -> Option<nat> {
    (i: nat) => if i <= |s| then UrlAt(s, i) else None
  }

  /** `regex_url(text)`: `re.findall(...)[0]` or None (`Regex.Match(...).Value` or null in C#). */
  function RegexUrl(text: string): Option<string> {
    match Leftmost(UrlAttempt(text), |text|, 0)
    case None => None
    case Some(sp) => Some(text[sp.start..sp.end])
  }

  /** No match starts at or after the end of the text, or before its start. */
  lemma NoUrlOutside(s: string, i: int, j: int)
    requires i < 0 || i >= |s|
    ensures !UrlMatch(s, i, j)
  {
  }

  /** The result is absent exactly when the text holds no match, and otherwise it is the
      text of the leftmost-longest match. */
  lemma RegexUrlSpec(text: string)
    ensures RegexUrl(text).None? <==> forall i, j :: !UrlMatch(text, i, j)
    ensures RegexUrl(text).Some? ==>
      exists i, j :: FirstUrl(text, i, j) && RegexUrl(text).value == text[i..j]
  {
    var attempt := UrlAttempt(text);
    LeftmostSpec(attempt, |text|, 0);
    match Leftmost(attempt, |text|, 0)
    case None =>
      forall i, j ensures !UrlMatch(text, i, j) {
        if 0 <= i < |text| {
          assert attempt(i).None?;
          UrlAtNone(text, i);
        } else {
          NoUrlOutside(text, i, j);
        }
      }
    case Some(sp) =>
      assert attempt(sp.start) == UrlAt(text, sp.start);
      UrlAtSound(text, sp.start);
      UrlAtMaximal(text, sp.start);
      forall i, j | 0 <= i < sp.start ensures !UrlMatch(text, i, j) {
        assert attempt(i).None?;
        UrlAtNone(text, i);
      }
      assert FirstUrl(text, sp.start, sp.end);
  }

  /** The span and the parts of a found URL. */
  lemma FoundUrl(text: string) returns (i: int, a: int, h: int, t: int, p: int, j: int)
    requires RegexUrl(text).Some?
    ensures FirstUrl(text, i, j) && UrlShape(text, i, a, h, t, p, j)
    ensures RegexUrl(text).value == text[i..j]
  {
    RegexUrlSpec(text);
    i, j :| FirstUrl(text, i, j) && RegexUrl(text).value == text[i..j];
    a, h, t, p :| UrlShape(text, i, a, h, t, p, j);
  }

  /** A found URL starts with "http://" or "https://". */
  lemma UrlStartsWithScheme(text: string)
    requires RegexUrl(text).Some?
    ensures var u := RegexUrl(text).value;
      (|u| >= 7 && u[..7] == "http://") || (|u| >= 8 && u[..8] == "https://")
  {
    var i, a, h, t, p, j := FoundUrl(text);
    assert text[i..j][..a - i] == text[i..a];
  }

  /** A found URL holds no white space. */
  lemma UrlHasNoSpace(text: string)
    requires RegexUrl(text).Some?
    ensures forall x :: 0 <= x < |RegexUrl(text).value| ==> !IsSpace(RegexUrl(text).value[x])
  {
    var i, a, h, t, p, j := FoundUrl(text);
    UrlShapeNoSpace(text, i, a, h, t, p, j);
    forall x | 0 <= x < j - i ensures !IsSpace(text[i..j][x]) {
      assert text[i..j][x] == text[i + x];
    }
  }

  /** A URL found in text without upper-case letters has none either; every variant
      searches the lower-cased body. */
  lemma UrlOfLowerTextIsLower(text: string)
    requires forall x :: 0 <= x < |text| ==> !IsUpperLetter(text[x])
    requires RegexUrl(text).Some?
    ensures forall x :: 0 <= x < |RegexUrl(text).value| ==> !IsUpperLetter(RegexUrl(text).value[x])
  {
    var i, a, h, t, p, j := FoundUrl(text);
    forall x | 0 <= x < j - i ensures !IsUpperLetter(text[i..j][x]) {
      assert text[i..j][x] == text[i + x];
    }
  }
}
