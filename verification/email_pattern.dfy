/** `regex_email` / `RegexEmail`: the first match, in document order, of the pattern
    `[a-zA-Z0-9._%+-]+@[a-zA-Z0-9.-]+\.[a-zA-Z]{2,}` on the original (not lower-cased) body.

    The scanner below does what a backtracking engine does with this pattern. The local part
    cannot contain '@', so the greedy `[a-zA-Z0-9._%+-]+` keeps only its maximal run and that
    run must be followed by '@'. The greedy domain part then gives characters back one at a
    time until a '.' followed by two letters comes after it, and `[a-zA-Z]{2,}` takes every
    letter that follows. The match found this way is the longest one from the leftmost start. */
module EmailPattern {
  import opened Wrappers
  import opened Text

  /** `[a-zA-Z0-9._%+-]` */
  predicate IsLocalChar(c: char) {
    IsAsciiLetter(c) || IsDigit(c) || c == '.' || c == '_' || c == '%' || c == '+' || c == '-'
  }

  /** `[a-zA-Z0-9.-]` */
  predicate IsDomainChar(c: char) {
    IsAsciiLetter(c) || IsDigit(c) || c == '.' || c == '-'
  }

  /** s[i..j] is matched by the pattern with the '@' at index a and the last `\.` at index k. */
  ghost predicate EmailShape(s: string, i: int, a: int, k: int, j: int) {
    && 0 <= i < a && a + 1 < k && k + 2 < j <= |s|
    && All(s, i, a, IsLocalChar) && s[a] == '@'
    && All(s, a + 1, k, IsDomainChar) && s[k] == '.'
    && All(s, k + 1, j, IsAsciiLetter)
  }

  /** s[i..j] is a match of the pattern. */
  ghost predicate EmailMatch(s: string, i: int, j: int) {
    exists a, k :: EmailShape(s, i, a, k, j)
  }

  /** s[i..j] is the match a regex search returns: no match starts before i and none from i is longer. */
  ghost predicate FirstEmail(s: string, i: int, j: int) {
    && EmailMatch(s, i, j)
    && (forall i', j' :: 0 <= i' < i ==> !EmailMatch(s, i', j'))
    && (forall j' :: j < j' ==> !EmailMatch(s, i, j'))
  }

  /** A '.' at k followed by two letters: where `\.[a-zA-Z]{2,}` can start. */
  predicate DotBeforeLabel(s: string, k: nat) {
    k + 2 < |s| && s[k] == '.' && IsAsciiLetter(s[k + 1]) && IsAsciiLetter(s[k + 2])
  }

  /** Backtracking of the greedy domain part s[lo..k): give back one character at a time until
      the remaining part is followed by a '.' and two letters; None once the part would be empty. */
  function LastDot(s: string, lo: nat, k: nat): (r: Option<nat>)
    requires lo <= k <= |s|
    ensures r.Some? ==> lo < r.value <= k && DotBeforeLabel(s, r.value)
    ensures forall x :: (if r.Some? then r.value else lo) < x <= k ==> !DotBeforeLabel(s, x)
    decreases k
  {
    if k == lo then None
    else if DotBeforeLabel(s, k) then Some(k)
    else LastDot(s, lo, k - 1)
  }

  /** One attempt of the engine at start position i: the end of the match, or None. */
  function EmailAt(s: string, i: nat): (r: Option<nat>)
    requires i <= |s|
    ensures r.Some? ==> i < r.value <= |s|
  {
    var a := RunEnd(s, i, IsLocalChar);
    if a == i || a == |s| || s[a] != '@' then None
    else
      var e := RunEnd(s, a + 1, IsDomainChar);
      match LastDot(s, a + 1, e)
      case None => None
      case Some(k) => Some(RunEnd(s, k + 1, IsAsciiLetter))
  }

  /** What the attempt at i finds is a match. */
  lemma EmailAtSound(s: string, i: nat)
    requires i <= |s| && EmailAt(s, i).Some?
    ensures EmailMatch(s, i, EmailAt(s, i).value)
  {
    var a := RunEnd(s, i, IsLocalChar);
    var e := RunEnd(s, a + 1, IsDomainChar);
    var k := LastDot(s, a + 1, e).value;
    var j := RunEnd(s, k + 1, IsAsciiLetter);
    RunEndCovers(s, k + 1, k + 3, IsAsciiLetter);
    assert EmailShape(s, i, a, k, j);
  }

  /** Every match that starts at i makes the attempt at i succeed, and ends no later. */
  lemma EmailAtLongest(s: string, i: nat, a: int, k: int, j: int)
    requires EmailShape(s, i, a, k, j)
    ensures EmailAt(s, i).Some? && j <= EmailAt(s, i).value
  {
    RunEndExact(s, i, a, IsLocalChar);
    assert All(s, a + 1, k + 1, IsDomainChar);
    var e := RunEnd(s, a + 1, IsDomainChar);
    RunEndCovers(s, a + 1, k + 1, IsDomainChar);
    assert DotBeforeLabel(s, k);
    var k' := LastDot(s, a + 1, e).value;
    assert k <= k';
    if k == k' {
      RunEndCovers(s, k + 1, j, IsAsciiLetter);
    }
  }

  /** No match starts at i. */
  lemma EmailAtNone(s: string, i: nat)
    requires i <= |s| && EmailAt(s, i).None?
    ensures forall j :: !EmailMatch(s, i, j)
  {
    forall j, a, k | EmailShape(s, i, a, k, j) ensures false {
      EmailAtLongest(s, i, a, k, j);
    }
  }

  /** The attempt at each start position of the text; none succeeds past its end. */
  function EmailAttempt(s: string): nat -> Option<nat> {
    (i: nat) => if i <= |s| then EmailAt(s, i) else None
  }

  /** `regex_email(text)`: `re.findall(...)[0]` or None (`Regex.Match(...).Value` or null in C#). */
  function RegexEmail(text: string): Option<string> {
    match Leftmost(EmailAttempt(text), |text|, 0)
    case None => None
    case Some(sp) => Some(text[sp.start..sp.end])
  }

  /** No match starts at or after the end of the text, or before its start. */
  lemma NoEmailOutside(s: string, i: int, j: int)
    requires i < 0 || i >= |s|
    ensures !EmailMatch(s, i, j)
  {
  }

  /** The result is absent exactly when the text holds no match, and otherwise it is the
      text of the leftmost-longest match. */
  lemma RegexEmailSpec(text: string)
    ensures RegexEmail(text).None? <==> forall i, j :: !EmailMatch(text, i, j)
    ensures RegexEmail(text).Some? ==>
      exists i, j :: FirstEmail(text, i, j) && RegexEmail(text).value == text[i..j]
  {
    var attempt := EmailAttempt(text);
    LeftmostSpec(attempt, |text|, 0);
    match Leftmost(attempt, |text|, 0)
    case None =>
      forall i, j ensures !EmailMatch(text, i, j) {
        if 0 <= i < |text| {
          assert attempt(i).None?;
          EmailAtNone(text, i);
        } else {
          NoEmailOutside(text, i, j);
        }
      }
    case Some(sp) =>
      assert attempt(sp.start) == EmailAt(text, sp.start);
      EmailAtSound(text, sp.start);
      EmailLongestAt(text, sp.start);
      forall i, j | 0 <= i < sp.start ensures !EmailMatch(text, i, j) {
        assert attempt(i).None?;
        EmailAtNone(text, i);
      }
      assert FirstEmail(text, sp.start, sp.end);
  }

  /** Nothing longer than what the attempt at i finds is a match from i. */
  lemma EmailLongestAt(s: string, i: nat)
    requires i <= |s| && EmailAt(s, i).Some?
    ensures forall j :: EmailAt(s, i).value < j ==> !EmailMatch(s, i, j)
  {
    forall j, a, k | EmailShape(s, i, a, k, j) ensures j <= EmailAt(s, i).value {
      EmailAtLongest(s, i, a, k, j);
    }
  }

  /** Text without an '@' holds no email. */
  lemma NoAtSignNoEmail(text: string)
    requires forall x :: 0 <= x < |text| ==> text[x] != '@'
    ensures RegexEmail(text) == None
  {
    RegexEmailSpec(text);
  }

  /** The span of a found email, which is the first match. */
  lemma FirstEmailSpan(text: string) returns (i: int, j: int)
    requires RegexEmail(text).Some?
    ensures FirstEmail(text, i, j) && RegexEmail(text).value == text[i..j]
  {
    RegexEmailSpec(text);
    i, j :| FirstEmail(text, i, j) && RegexEmail(text).value == text[i..j];
  }

  /** The span and the positions of '@' and of the last dot of a found email. */
  lemma FoundEmail(text: string) returns (i: int, a: int, k: int, j: int)
    requires RegexEmail(text).Some?
    ensures EmailShape(text, i, a, k, j)
    ensures RegexEmail(text).value == text[i..j]
  {
    i, j := FirstEmailSpan(text);
    a, k :| EmailShape(text, i, a, k, j);
  }

  /** A found email is a piece of the text that is not followed by a letter. */
  lemma EmailIsMaximalSubstring(text: string)
    requires RegexEmail(text).Some?
    ensures var e := RegexEmail(text).value;
      exists i :: OccursAt(text, e, i) && (i + |e| == |text| || !IsAsciiLetter(text[i + |e|]))
  {
    var i, j := FoundEmailEnd(text);
    assert OccursAt(text, text[i..j], i);
  }

  /** The span of a found email, and the character after it is not a letter. */
  lemma FoundEmailEnd(text: string) returns (i: int, j: int)
    requires RegexEmail(text).Some?
    ensures 0 <= i <= j <= |text| && RegexEmail(text).value == text[i..j]
    ensures j == |text| || !IsAsciiLetter(text[j])
  {
    i, j := FirstEmailSpan(text);
    EndNotFollowedByLetter(text, i, j);
  }

  /** The first match is not followed by a letter: it cannot be made longer. */
  lemma EndNotFollowedByLetter(s: string, i: int, j: int)
    requires FirstEmail(s, i, j)
    ensures j == |s| || !IsAsciiLetter(s[j])
  {
    var a, k :| EmailShape(s, i, a, k, j);
    assert !EmailMatch(s, i, j + 1);
    assert !EmailShape(s, i, a, k, j + 1);
    if j < |s| {
      AllStep(s, k + 1, j, IsAsciiLetter);
    }
  }

  /** A found email holds exactly one '@', not at its start. */
  lemma EmailHasOneAtSign(text: string)
    requires RegexEmail(text).Some?
    ensures var e := RegexEmail(text).value;
      exists a :: 0 < a < |e| && e[a] == '@' && forall x :: 0 <= x < |e| && x != a ==> e[x] != '@'
  {
    var i, a, k, j := FoundEmail(text);
    var e := text[i..j];
    assert e[a - i] == '@';
    forall x | 0 <= x < |e| && x != a - i ensures e[x] != '@' {
      assert e[x] == text[i + x];
    }
  }

  /** A found email ends in a '.' followed by two or more letters. */
  lemma EmailEndsWithLabel(text: string)
    requires RegexEmail(text).Some?
    ensures var e := RegexEmail(text).value;
      exists k :: 0 < k && k + 2 < |e| && e[k] == '.' && forall x :: k < x < |e| ==> IsAsciiLetter(e[x])
  {
    var i, a, k, j := FoundEmail(text);
    var e := text[i..j];
    assert e[k - i] == '.';
    forall x | k - i < x < |e| ensures IsAsciiLetter(e[x]) {
      assert e[x] == text[i + x];
    }
  }

  /** A found email is made of pattern characters only: no space, comma or line break. */
  lemma EmailCharset(text: string)
    requires RegexEmail(text).Some?
    ensures var e := RegexEmail(text).value;
      forall x :: 0 <= x < |e| ==> IsLocalChar(e[x]) || e[x] == '@'
  {
    var i, a, k, j := FoundEmail(text);
    var e := text[i..j];
    forall x | 0 <= x < |e| ensures IsLocalChar(e[x]) || e[x] == '@' {
      assert e[x] == text[i + x];
      ShapeCharAt(text, i, a, k, j, i + x);
    }
  }

  /** Each character of a match is a pattern character or the '@'. */
  lemma ShapeCharAt(s: string, i: int, a: int, k: int, j: int, y: int)
    requires EmailShape(s, i, a, k, j) && i <= y < j
    ensures IsLocalChar(s[y]) || s[y] == '@'
  {
    if y < a {
      assert i <= y < a;
    } else if a < y < k {
      assert IsDomainChar(s[y]);
    } else if k < y {
      assert IsAsciiLetter(s[y]);
    }
  }
}
