/** Reading the number of the newest issue from the listing page: the Python variants take
    the first run of digits in the `id` attribute of the first `div.Box-row`, the C# variant
    searches the raw page for `<div class="Box-row" id="issue_(\d+)">`. */
module IssueNumber {
  import opened Wrappers
  import opened Text

  /** Why reading the issue count can fail. */
  datatype ParseError =
    | NoDigits    // `issue_number[0]` on an empty match list (an IndexError)
    | Overflow    // `int.Parse` of a value above `int.MaxValue` (an OverflowException)

  /** The largest value of a C# `int`. */
  const Int32Max: int := 0x7FFF_FFFF

  /** The value of a digit character. */
  function DigitValue(c: char): (r: nat)
    requires IsDigit(c)
    ensures r < 10
  {
    (c as int - '0' as int) as nat
  }

  /** The digit character of a value below ten. */
  function DigitChar(v: nat): (c: char)
    requires v < 10
    ensures IsDigit(c) && DigitValue(c) == v
  {
    ('0' as int + v) as char
  }

  /** The value of a string of decimal digits, most significant first, as `int()` and
      `int.Parse` read it (leading zeros allowed). */
  function DecimalValue(d: string): nat
    requires All(d, 0, |d|, IsDigit)
  {
    if |d| == 0 then 0
    else DecimalValue(d[..|d| - 1]) * 10 + DigitValue(d[|d| - 1])
  }

  /** The decimal text of `n`, as `str(n)` and `$"{n}"` write it. */
  function DecimalString(n: nat): (d: string)
    ensures 0 < |d| && All(d, 0, |d|, IsDigit)
    ensures |d| > 1 ==> d[0] != '0'
  {
    if n < 10 then [DigitChar(n)]
    else DecimalString(n / 10) + [DigitChar(n % 10)]
  }

  /** Reading back what was written gives the number again. */
  lemma {:induction false} DecimalRoundTrip(n: nat)
    ensures DecimalValue(DecimalString(n)) == n
  {
    var d := DecimalString(n);
    if n >= 10 {
      DecimalRoundTrip(n / 10);
      assert d[..|d| - 1] == DecimalString(n / 10);
    }
  }

  /** Reference definition of `re.findall(r'\d+', s)[0]`: a maximal run of digits with no
      digit before it. */
  ghost predicate FirstRun(s: string, i: int, j: int) {
    && i < j && All(s, i, j, IsDigit)
    && (j == |s| || !IsDigit(s[j]))
    && forall x :: 0 <= x < i ==> !IsDigit(s[x])
  }

  /** The first maximal run of digits at or after `from`, if any. */
  function FirstDigitRun(s: string, from: nat): (r: Option<Span>)
    requires from <= |s|
    requires forall x :: 0 <= x < from ==> !IsDigit(s[x])
    ensures r.Some? ==> FirstRun(s, r.value.start, r.value.end)
    ensures r.None? <==> forall x :: 0 <= x < |s| ==> !IsDigit(s[x])
    decreases |s| - from
  {
    if from == |s| then None
    else if IsDigit(s[from]) then Some(Span(from, RunEnd(s, from, IsDigit)))
    else FirstDigitRun(s, from + 1)
  }

  /** There is only one first run. */
  lemma FirstRunUnique(s: string, i: int, j: int, i': int, j': int)
    requires FirstRun(s, i, j) && FirstRun(s, i', j')
    ensures i == i' && j == j'
  {
    RunEndExact(s, i, j, IsDigit);
    RunEndExact(s, i', j', IsDigit);
  }

  /** `get_issue_number` of the two refactored scripts: the value of the first digit run,
      or 0 when the text has no digit. */
  function IssueCountOrZero(id: string): (n: nat)
    ensures (forall x :: 0 <= x < |id| ==> !IsDigit(id[x])) ==> n == 0
    ensures forall i, j :: FirstRun(id, i, j) ==> n == DecimalValue(id[i..j])
  {
    match FirstDigitRun(id, 0)
    case None => 0
    case Some(sp) =>
      assert forall i, j :: FirstRun(id, i, j) ==> i == sp.start && j == sp.end by {
        forall i, j | FirstRun(id, i, j) ensures i == sp.start && j == sp.end {
          FirstRunUnique(id, i, j, sp.start, sp.end);
        }
      }
      DecimalValue(id[sp.start..sp.end])
  }

  /** The issue count of the first script, which has no fallback: an `id` without a digit
      is an error; otherwise it agrees with the refactored scripts. */
  function IssueCountStrict(id: string): (r: Result<nat, ParseError>)
    ensures r.Failure? <==> forall x :: 0 <= x < |id| ==> !IsDigit(id[x])
    ensures r.Failure? ==> r.error == NoDigits
    ensures r.Success? ==> r.value == IssueCountOrZero(id)
  {
    match FirstDigitRun(id, 0)
    case None => Failure(NoDigits)
    case Some(sp) => Success(DecimalValue(id[sp.start..sp.end]))
  }

  /** GitHub's row id `issue_<n>` gives back `n`. */
  lemma IssueIdRoundTrip(n: nat)
    ensures IssueCountOrZero("issue_" + DecimalString(n)) == n
    ensures IssueCountStrict("issue_" + DecimalString(n)) == Success(n)
  {
    var id := "issue_" + DecimalString(n);
    var d := DecimalString(n);
    assert forall x :: 0 <= x < 6 ==> !IsDigit(id[x]);
    assert All(id, 6, |id|, IsDigit) by {
      forall x | 6 <= x < |id| ensures IsDigit(id[x]) {
        assert id[x] == d[x - 6];
      }
    }
    assert FirstRun(id, 6, |id|);
    assert id[6..|id|] == d;
    DecimalRoundTrip(n);
  }

  // ---- C#: `<div class="Box-row" id="issue_([\d]+)">` ----

  /** The literal text before the captured digits. */
  const TagOpen: string := "<div class=\"Box-row\" id=\"issue_"

  /** The literal text after the captured digits. */
  const TagClose: string := "\">"

  /** Reference definition: the pattern matches at `i` with digits `k..j`
      (`k` right after the opening text, `j` right before the closing text). */
  ghost predicate TagMatch(s: string, i: int, j: int) {
    && OccursAt(s, TagOpen, i)
    && i + |TagOpen| < j && All(s, i + |TagOpen|, j, IsDigit)
    && OccursAt(s, TagClose, j)
  }

  /** The end of the digits when the pattern matches at `i`. */
  function TagAt(s: string, i: nat): (r: Option<nat>)
    ensures r.Some? ==> TagMatch(s, i, r.value)
    ensures r.None? ==> forall j :: !TagMatch(s, i, j)
  {
    if i + |TagOpen| <= |s| && s[i..i + |TagOpen|] == TagOpen then
      var k := i + |TagOpen|;
      var j := RunEnd(s, k, IsDigit);
      if k < j && j + |TagClose| <= |s| && s[j..j + |TagClose|] == TagClose then Some(j)
      else
        assert forall j' :: TagMatch(s, i, j') ==> j' == j by {
          forall j' | TagMatch(s, i, j') ensures j' == j {
            assert s[j'] == s[j'..j' + |TagClose|][0];
            RunEndExact(s, k, j', IsDigit);
          }
        }
        None
    else None
  }

  /** The attempt at each start position of the page. */
  function TagAttempt(s: string): nat -> Option<nat> {
    (i: nat) => TagAt(s, i)
  }

  /** Reference definition of `Regex.Match`: a match with no match starting earlier. */
  ghost predicate LeftmostTag(s: string, i: int, j: int) {
    TagMatch(s, i, j) && forall i', j' :: 0 <= i' < i ==> !TagMatch(s, i', j')
  }

  /** At a given start the digits, and so the match, are unique. */
  lemma LeftmostTagUnique(s: string, i: int, j: int, i': int, j': int)
    requires LeftmostTag(s, i, j) && LeftmostTag(s, i', j')
    ensures i == i' && j == j'
  {
    var k := i + |TagOpen|;
    assert !IsDigit(s[j]) by { assert s[j] == s[j..j + |TagClose|][0]; }
    assert !IsDigit(s[j']) by { assert s[j'] == s[j'..j' + |TagClose|][0]; }
    RunEndExact(s, k, j, IsDigit);
    RunEndExact(s, k, j', IsDigit);
  }

  /** `int.Parse` of a string of digits: its value, or an overflow error above
      `int.MaxValue`. */
  function ParseInt32(d: string): (r: Result<int, ParseError>)
    requires All(d, 0, |d|, IsDigit)
    ensures r.Success? <==> DecimalValue(d) <= Int32Max
    ensures r.Success? ==> r.value == DecimalValue(d)
    ensures r.Failure? ==> r.error == Overflow
  {
    var v := DecimalValue(d);
    if v <= Int32Max then Success(v) else Failure(Overflow)
  }

  /** `GetIssueNumber`: 0 when the pattern does not occur; otherwise the digits of the
      leftmost match parsed as an `int`. */
  function IssueCountCs(content: string): (r: Result<int, ParseError>)
    ensures r.Success? ==> 0 <= r.value <= Int32Max
    ensures r.Failure? ==> r.error == Overflow
  {
    match Leftmost(TagAttempt(content), |content|, 0)
    case None => Success(0)
    case Some(sp) =>
      var k := sp.start + |TagOpen|;
      AllSlice(content, k, sp.end, IsDigit);
      ParseInt32(content[k..sp.end])
  }

  /** The search over the page finds the leftmost match, and finds none only when the page
      holds none. */
  lemma TagSearchSpec(content: string)
    ensures var r := Leftmost(TagAttempt(content), |content|, 0);
      && (r.Some? ==> LeftmostTag(content, r.value.start, r.value.end))
      && (r.None? <==> forall i, j :: !TagMatch(content, i, j))
  {
    var attempt := TagAttempt(content);
    LeftmostSpec(attempt, |content|, 0);
    var r := Leftmost(attempt, |content|, 0);
    var bound := if r.Some? then r.value.start else |content|;
    forall i, j | 0 <= i < bound ensures !TagMatch(content, i, j) {
      assert attempt(i).None?;
    }
    if r.Some? {
      assert attempt(r.value.start) == TagAt(content, r.value.start);
    }
  }

  /** Without a row tag the count is 0. */
  lemma IssueCountCsNoTag(content: string)
    requires forall i, j :: !TagMatch(content, i, j)
    ensures IssueCountCs(content) == Success(0)
  {
    TagSearchSpec(content);
  }

  /** With a leftmost row tag at i whose digits end at j, the count is those digits read by
      `int.Parse`. */
  lemma IssueCountCsTag(content: string, i: int, j: int)
    requires LeftmostTag(content, i, j)
    ensures All(content[i + |TagOpen|..j], 0, j - i - |TagOpen|, IsDigit)
    ensures IssueCountCs(content) == ParseInt32(content[i + |TagOpen|..j])
  {
    AllSlice(content, i + |TagOpen|, j, IsDigit);
    TagSearchSpec(content);
    var sp := Leftmost(TagAttempt(content), |content|, 0).value;
    LeftmostTagUnique(content, i, j, sp.start, sp.end);
  }

  /** The number in the first row tag of a page is the issue count, for every count an
      `int` holds, whatever follows the tag. */
  lemma TagRoundTrip(n: nat, rest: string)
    requires n <= Int32Max
    ensures IssueCountCs(TagOpen + DecimalString(n) + TagClose + rest) == Success(n)
  {
    var d := DecimalString(n);
    var s := TagOpen + d + TagClose + rest;
    var k := |TagOpen|;
    var j := k + |d|;
    assert s[..k] == TagOpen;
    assert All(s, k, j, IsDigit) by {
      forall x | k <= x < j ensures IsDigit(s[x]) {
        assert s[x] == d[x - k];
      }
    }
    assert s[j..j + 2] == TagClose;
    assert LeftmostTag(s, 0, j);
    assert s[k..j] == d;
    DecimalRoundTrip(n);
    IssueCountCsTag(s, 0, j);
  }
}
