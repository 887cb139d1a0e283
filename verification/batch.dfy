/** What a run over issues 1..n produces, stated as functions of the fetched pages. The
    loops of the four programs are proved against these. */
module Batch {
  import opened Wrappers
  import opened Records
  import EmailPattern
  import IssueNumber

  /** The issue pages a run can fetch, by issue number. A number that is not in the map is a
      request that fails, which ends the run with an exception in every program. */
  type Pages = map<int, Page>

  /** Why a run stops early. */
  datatype RunError =
    | CountError(reason: IssueNumber.ParseError)  // the issue count could not be read
    | FetchFailed(issue: int)                       // fetching this issue failed

  /** Issues 1..m can all be fetched. */
  predicate Fetchable(pages: Pages, m: int) {
    forall k :: 1 <= k <= m ==> k in pages
  }

  /** The records of issues 1..m, in issue order, each computed from its page by `extract`:
      `ExtractAsWritten` for the first script, `Extract` for the others. */
  function RecordsOf(extract: Page -> Record, pages: Pages, m: nat): (rs: seq<Record>)
    requires Fetchable(pages, m)
    ensures |rs| == m
  {
    if m == 0 then [] else RecordsOf(extract, pages, m - 1) + [extract(pages[m])]
  }

  /** One more fetched issue adds its record at the end. */
  lemma RecordsSnoc(extract: Page -> Record, pages: Pages, m: nat)
    requires Fetchable(pages, m) && m + 1 in pages
    ensures Fetchable(pages, m + 1)
    ensures RecordsOf(extract, pages, m + 1) == RecordsOf(extract, pages, m) + [extract(pages[m + 1])]
  {
  }

  /** The record of issue k is the k-th record. */
  lemma {:induction false} RecordsAt(extract: Page -> Record, pages: Pages, m: nat, k: int)
    requires Fetchable(pages, m) && 1 <= k <= m
    ensures RecordsOf(extract, pages, m)[k - 1] == extract(pages[k])
  {
    if k < m {
      RecordsAt(extract, pages, m - 1, k);
    }
  }

  /** The lines `save_data` / `SaveData` append for a list of records. */
  function Lines(v: Variant, rs: seq<Record>): (ls: seq<string>)
    ensures |ls| == |rs|
  {
    if |rs| == 0 then [] else Lines(v, rs[..|rs| - 1]) + [Line(v, rs[|rs| - 1])]
  }

  lemma LinesSnoc(v: Variant, rs: seq<Record>, r: Record)
    ensures Lines(v, rs + [r]) == Lines(v, rs) + [Line(v, r)]
  {
    assert (rs + [r])[..|rs|] == rs;
  }

  /** One line per record, in the order of the records. */
  lemma {:induction false} LinesAt(v: Variant, rs: seq<Record>, k: int)
    requires 0 <= k < |rs|
    ensures Lines(v, rs)[k] == Line(v, rs[k])
  {
    if k < |rs| - 1 {
      LinesAt(v, rs[..|rs| - 1], k);
    }
  }

  /** Once issues 1..m have appended their lines to the file `csv0`, the line of issue k is
      at position |csv0| + k - 1. */
  lemma LineOfIssue(v: Variant, extract: Page -> Record, pages: Pages, m: nat,
    csv0: seq<string>, k: int)
    requires Fetchable(pages, m) && 1 <= k <= m
    ensures var csv := csv0 + Lines(v, RecordsOf(extract, pages, m));
      |csv| == |csv0| + m && csv[|csv0| + k - 1] == Line(v, extract(pages[k]))
  {
    LinesAt(v, RecordsOf(extract, pages, m), k - 1);
    RecordsAt(extract, pages, m, k);
  }

  /** Whether a program keeps an email: `scraping.py` keeps anything but `None` when it
      writes the set out, C# anything but `null`; the two refactored scripts keep only
      truthy values, so not the empty text either. */
  predicate Kept(v: Variant, o: Option<string>) {
    if v == FirstScript || v == CSharp then o.Some? else o.Some? && |o.value| > 0
  }

  /** For the emails the extractor finds, every program keeps exactly the ones found. */
  lemma KeptIffFound(v: Variant, body: string)
    ensures Kept(v, EmailPattern.RegexEmail(body)) <==> EmailPattern.RegexEmail(body).Some?
  {
    if EmailPattern.RegexEmail(body).Some? {
      EmailField(body);
    }
  }

  /** The kept email of one record, as a set of at most one element. */
  function KeptSet(v: Variant, o: Option<string>): (s: set<string>)
    ensures forall e :: e in s <==> Kept(v, o) && o == Some(e)
  {
    if Kept(v, o) then {o.value} else {}
  }

  /** The distinct kept emails of a list of records. */
  function Emails(v: Variant, rs: seq<Record>): set<string> {
    if |rs| == 0 then {} else Emails(v, rs[..|rs| - 1]) + KeptSet(v, rs[|rs| - 1].email)
  }

  lemma EmailsSnoc(v: Variant, rs: seq<Record>, r: Record)
    ensures Emails(v, rs + [r]) == Emails(v, rs) + KeptSet(v, r.email)
  {
    assert (rs + [r])[..|rs|] == rs;
  }

  /** Reference definition: an email is collected iff some record has it and it is kept. */
  lemma {:induction false} EmailsMembers(v: Variant, rs: seq<Record>, e: string)
    ensures e in Emails(v, rs) <==>
      exists k :: 0 <= k < |rs| && rs[k].email == Some(e) && Kept(v, Some(e))
  {
    if |rs| > 0 {
      var init := rs[..|rs| - 1];
      EmailsMembers(v, init, e);
      if k :| 0 <= k < |rs| - 1 && rs[k].email == Some(e) && Kept(v, Some(e)) {
        assert init[k] == rs[k];
      }
      if k :| 0 <= k < |init| && init[k].email == Some(e) && Kept(v, Some(e)) {
        assert rs[k] == init[k];
      }
    }
  }

  /** For an extraction whose emails are kept exactly when present, the emails kept from
      issues 1..n are exactly the emails of their records. */
  lemma RecordEmails(v: Variant, extract: Page -> Record, pages: Pages, n: nat, e: string)
    requires Fetchable(pages, n)
    requires forall p :: Kept(v, extract(p).email) <==> extract(p).email.Some?
    ensures e in Emails(v, RecordsOf(extract, pages, n)) <==>
      exists k :: 1 <= k <= n && extract(pages[k]).email == Some(e)
  {
    var rs := RecordsOf(extract, pages, n);
    EmailsMembers(v, rs, e);
    if e in Emails(v, rs) {
      var k :| 0 <= k < |rs| && rs[k].email == Some(e) && Kept(v, Some(e));
      RecordsAt(extract, pages, n, k + 1);
    }
    if k :| 1 <= k <= n && extract(pages[k]).email == Some(e) {
      RecordsAt(extract, pages, n, k);
      assert rs[k - 1].email == Some(e);
    }
  }

  /** The email of a record is `regex_email` of the body, and every program keeps it exactly
      when it is found. */
  lemma ExtractEmail(v: Variant, p: Page)
    ensures Extract(p).email == EmailPattern.RegexEmail(p.body)
    ensures ExtractAsWritten(p).email == EmailPattern.RegexEmail(p.body)
    ensures Kept(v, Extract(p).email) <==> Extract(p).email.Some?
    ensures Kept(v, ExtractAsWritten(p).email) <==> ExtractAsWritten(p).email.Some?
  {
    KeptIffFound(v, p.body);
  }

  /** The kept emails of a list of records in order, duplicates included: the lines the
      multiprocessing script appends to `emails.txt`. */
  function EmailLog(v: Variant, rs: seq<Record>): seq<string> {
    if |rs| == 0 then []
    else
      var o := rs[|rs| - 1].email;
      EmailLog(v, rs[..|rs| - 1]) + (if Kept(v, o) then [o.value] else [])
  }

  lemma EmailLogSnoc(v: Variant, rs: seq<Record>, r: Record)
    ensures EmailLog(v, rs + [r]) == EmailLog(v, rs) + (if Kept(v, r.email) then [r.email.value] else [])
  {
    assert (rs + [r])[..|rs|] == rs;
  }

  /** The log holds exactly the distinct emails, with repetitions. */
  lemma {:induction false} EmailLogSet(v: Variant, rs: seq<Record>)
    ensures forall e :: e in EmailLog(v, rs) <==> e in Emails(v, rs)
  {
    if |rs| > 0 {
      EmailLogSet(v, rs[..|rs| - 1]);
    }
  }

  /** The emails of a list of records as `scraping.py` adds them to its set: `None`
      included. */
  function EmailOptions(rs: seq<Record>): set<Option<string>> {
    if |rs| == 0 then {} else EmailOptions(rs[..|rs| - 1]) + {rs[|rs| - 1].email}
  }

  lemma EmailOptionsSnoc(rs: seq<Record>, r: Record)
    ensures EmailOptions(rs + [r]) == EmailOptions(rs) + {r.email}
  {
    assert (rs + [r])[..|rs|] == rs;
  }

  /** Reference definition: the set holds exactly the records' email values. */
  lemma {:induction false} EmailOptionsMembers(rs: seq<Record>, o: Option<string>)
    ensures o in EmailOptions(rs) <==> exists k :: 0 <= k < |rs| && rs[k].email == o
  {
    if |rs| > 0 {
      var init := rs[..|rs| - 1];
      EmailOptionsMembers(init, o);
      if k :| 0 <= k < |rs| - 1 && rs[k].email == o {
        assert init[k] == rs[k];
      }
      if k :| 0 <= k < |init| && init[k].email == o {
        assert rs[k] == init[k];
      }
    }
  }

  /** Dropping `None` from that set leaves the emails `scraping.py` keeps. */
  lemma {:induction false} EmailOptionsSome(rs: seq<Record>)
    ensures forall e :: Some(e) in EmailOptions(rs) <==> e in Emails(FirstScript, rs)
  {
    if |rs| > 0 {
      EmailOptionsSome(rs[..|rs| - 1]);
    }
  }

  // ---- one step of a run: issue m + 1 is processed after issues 1..m ----

  /** The lines written after issues 1..m, followed by the line of issue m + 1, are the lines
      written after issues 1..m + 1. */
  lemma LinesStep(v: Variant, extract: Page -> Record, pages: Pages, m: nat, before: seq<string>,
    csv: seq<string>)
    requires Fetchable(pages, m) && m + 1 in pages
    requires csv == before + Lines(v, RecordsOf(extract, pages, m))
    ensures Fetchable(pages, m + 1)
    ensures csv + [Line(v, extract(pages[m + 1]))] == before + Lines(v, RecordsOf(extract, pages, m + 1))
  {
    var rs := RecordsOf(extract, pages, m);
    var r := extract(pages[m + 1]);
    RecordsSnoc(extract, pages, m);
    LinesSnoc(v, rs, r);
    assert before + Lines(v, rs) + [Line(v, r)] == before + (Lines(v, rs) + [Line(v, r)]);
  }

  /** The same step for the set of kept emails. */
  lemma EmailsStep(v: Variant, extract: Page -> Record, pages: Pages, m: nat, before: set<string>,
    emails: set<string>)
    requires Fetchable(pages, m) && m + 1 in pages
    requires emails == before + Emails(v, RecordsOf(extract, pages, m))
    ensures emails + KeptSet(v, extract(pages[m + 1]).email)
      == before + Emails(v, RecordsOf(extract, pages, m + 1))
  {
    RecordsSnoc(extract, pages, m);
    EmailsSnoc(v, RecordsOf(extract, pages, m), extract(pages[m + 1]));
  }

  /** The same step for the set of `scraping.py`, `None` included. */
  lemma EmailOptionsStep(extract: Page -> Record, pages: Pages, m: nat, emails: set<Option<string>>)
    requires Fetchable(pages, m) && m + 1 in pages
    requires emails == EmailOptions(RecordsOf(extract, pages, m))
    ensures emails + {extract(pages[m + 1]).email} == EmailOptions(RecordsOf(extract, pages, m + 1))
  {
    RecordsSnoc(extract, pages, m);
    EmailOptionsSnoc(RecordsOf(extract, pages, m), extract(pages[m + 1]));
  }

  /** The same step for the email lines of the multiprocessing script. */
  lemma EmailLogStep(v: Variant, extract: Page -> Record, pages: Pages, m: nat, before: seq<string>,
    txt: seq<string>)
    requires Fetchable(pages, m) && m + 1 in pages
    requires txt == before + EmailLog(v, RecordsOf(extract, pages, m))
    ensures var o := extract(pages[m + 1]).email;
      txt + (if Kept(v, o) then [o.value] else []) == before + EmailLog(v, RecordsOf(extract, pages, m + 1))
  {
    var rs := RecordsOf(extract, pages, m);
    var r := extract(pages[m + 1]);
    var tail := if Kept(v, r.email) then [r.email.value] else [];
    RecordsSnoc(extract, pages, m);
    EmailLogSnoc(v, rs, r);
    assert before + EmailLog(v, rs) + tail == before + (EmailLog(v, rs) + tail);
  }
}
