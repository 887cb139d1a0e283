/** `scraping.py`: module-level functions; the loop in `get_issues_data` appends one line
    per issue to `data.csv`, gathers the emails (`None` included) in a local set, and then
    rewrites `emails.txt` from that set. */
module Scraping {
  import opened Wrappers
  import opened Records
  import opened Storage
  import opened Batch
  import IssueNumber
  import EmailPattern

  /** `save_data`: one record line appended to `data.csv`. */
  method SaveData(dir: DataDir, r: Record)
    modifies dir
    ensures dir.dataCsv == old(dir.dataCsv) + [Line(FirstScript, r)]
    ensures dir.emailsTxt == old(dir.emailsTxt)
  {
    dir.AppendData(Line(FirstScript, r));
  }

  /** `save_emails`: `emails.txt` is rewritten with every member of the set except `None`,
      each on a line of its own, once. */
  method SaveEmails(dir: DataDir, emails: set<Option<string>>)
    modifies dir
    ensures NoDup(dir.emailsTxt)
    ensures forall e :: e in dir.emailsTxt <==> Some(e) in emails
    ensures dir.dataCsv == old(dir.dataCsv)
  {
    dir.TruncateEmails();
    var rest := emails;
    while rest != {}
      invariant rest <= emails
      invariant NoDup(dir.emailsTxt)
      invariant forall e :: e in dir.emailsTxt <==> Some(e) in emails - rest
      invariant dir.dataCsv == old(dir.dataCsv)
      decreases |rest|
    {
      var o :| o in rest;
      if o.Some? {
        NoDupAppend(dir.emailsTxt, o.value);
        dir.AppendEmail(o.value);
      }
      rest := rest - {o};
    }
  }

  /** The state of `get_issues_data` after issues 1..m: `data.csv` has gained their lines,
      in issue order, and the local set holds their emails, `None` included. */
  ghost predicate Processed(extract: Page -> Record, pages: Pages, m: nat, csv0: seq<string>,
    csv: seq<string>, emails: set<Option<string>>)
  {
    && Fetchable(pages, m)
    && csv == csv0 + Lines(FirstScript, RecordsOf(extract, pages, m))
    && emails == EmailOptions(RecordsOf(extract, pages, m))
  }

  /** Processing issue m + 1 extends the state after issues 1..m to the state after issues
      1..m + 1. */
  lemma ProcessedStep(extract: Page -> Record, pages: Pages, m: nat, csv0: seq<string>,
    csv: seq<string>, emails: set<Option<string>>)
    requires Processed(extract, pages, m, csv0, csv, emails) && m + 1 in pages
    ensures var r := extract(pages[m + 1]);
      Processed(extract, pages, m + 1, csv0, csv + [Line(FirstScript, r)], emails + {r.email})
  {
    LinesStep(FirstScript, extract, pages, m, csv0, csv);
    EmailOptionsStep(extract, pages, m, emails);
  }

  /** The loop of `get_issues_data`: issues 1..n in increasing order, `done` of them
      processed, each adding its line to `data.csv` and its email to the set. It stops early
      only at an issue whose fetch fails. The loop is proved for any per-issue extraction; the
      script's own is `ExtractAsWritten`. */
  method IssueLoop(dir: DataDir, pages: Pages, n: nat, extract: Page -> Record)
    returns (done: nat, emails: set<Option<string>>)
    modifies dir
    ensures done <= n && (done < n ==> done + 1 !in pages)
    ensures Processed(extract, pages, done, old(dir.dataCsv), dir.dataCsv, emails)
    ensures dir.emailsTxt == old(dir.emailsTxt)
  {
    emails := {};
    done := 0;
    while done < n && done + 1 in pages
      invariant done <= n
      invariant Processed(extract, pages, done, old(dir.dataCsv), dir.dataCsv, emails)
      invariant dir.emailsTxt == old(dir.emailsTxt)
    {
      var r := extract(pages[done + 1]);
      ProcessedStep(extract, pages, done, old(dir.dataCsv), dir.dataCsv, emails);
      SaveData(dir, r);
      emails := emails + {r.email};
      done := done + 1;
    }
  }

  /** What the run over issues 1..n of `get_issues_data` leaves behind, from the files
      `csv0` and `emails0`: it ends with a failed fetch of some issue k, with the lines of
      issues 1..k-1 appended to `data.csv` and `emails.txt` untouched; or it passes, with one
      line per issue appended and `emails.txt` holding each email found, once. */
  ghost predicate IssuesRan(extract: Page -> Record, pages: Pages, n: nat, csv0: seq<string>,
    emails0: seq<string>, outcome: Outcome<RunError>, csv: seq<string>, emails: seq<string>)
  {
    && (outcome.Pass? || outcome.error.FetchFailed?)
    && (outcome.Pass? ==>
      && Fetchable(pages, n)
      && csv == csv0 + Lines(FirstScript, RecordsOf(extract, pages, n))
      && NoDup(emails)
      && forall e :: e in emails <==> e in Emails(FirstScript, RecordsOf(extract, pages, n)))
    && (outcome.Fail? ==>
      var k := outcome.error.issue;
      && 1 <= k <= n && k !in pages && Fetchable(pages, k - 1)
      && csv == csv0 + Lines(FirstScript, RecordsOf(extract, pages, k - 1))
      && emails == emails0)
  }

  /** A run that passes leaves in `emails.txt` exactly the emails found in the bodies of
      issues 1..n. */
  lemma RunEmails(pages: Pages, n: nat, csv0: seq<string>, emails0: seq<string>,
    outcome: Outcome<RunError>, csv: seq<string>, emails: seq<string>)
    requires IssuesRan(ExtractAsWritten, pages, n, csv0, emails0, outcome, csv, emails)
    requires outcome.Pass?
    ensures forall e :: e in emails <==>
      exists k :: 1 <= k <= n && EmailPattern.RegexEmail(pages[k].body) == Some(e)
  {
    forall p ensures Kept(FirstScript, ExtractAsWritten(p).email) <==> ExtractAsWritten(p).email.Some? {
      ExtractEmail(FirstScript, p);
    }
    forall e ensures e in emails <==>
      exists k :: 1 <= k <= n && EmailPattern.RegexEmail(pages[k].body) == Some(e)
    {
      RecordEmails(FirstScript, ExtractAsWritten, pages, n, e);
      forall k | 1 <= k <= n
        ensures ExtractAsWritten(pages[k]).email == EmailPattern.RegexEmail(pages[k].body)
      {
        ExtractEmail(FirstScript, pages[k]);
      }
    }
  }

  /** A run that passes appends exactly n lines, the k-th one for issue k. */
  lemma RunLines(extract: Page -> Record, pages: Pages, n: nat, csv0: seq<string>,
    emails0: seq<string>, outcome: Outcome<RunError>, csv: seq<string>, emails: seq<string>,
    k: int)
    requires IssuesRan(extract, pages, n, csv0, emails0, outcome, csv, emails)
    requires outcome.Pass? && 1 <= k <= n
    ensures |csv| == |csv0| + n
    ensures csv[|csv0| + k - 1] == Line(FirstScript, extract(pages[k]))
  {
    LineOfIssue(FirstScript, extract, pages, n, csv0, k);
  }

  /** `get_issues_data` once the count n is read: the loop over issues 1..n, then
      `save_emails` with the gathered set. */
  method IssuesData(dir: DataDir, pages: Pages, n: nat, extract: Page -> Record)
    returns (outcome: Outcome<RunError>)
    modifies dir
    ensures IssuesRan(extract, pages, n, old(dir.dataCsv), old(dir.emailsTxt), outcome,
      dir.dataCsv, dir.emailsTxt)
  {
    var done, emails := IssueLoop(dir, pages, n, extract);
    if done < n {
      return Fail(FetchFailed(done + 1));
    }
    SaveEmails(dir, emails);
    EmailOptionsSome(RecordsOf(extract, pages, n));
    return Pass;
  }

  /** `get_issues_data`. The issue count is the first digit run of the row id, and a row id
      without digits ends the run before anything is written; otherwise the run over the
      issues follows, with the script's own extraction. */
  method GetIssuesData(dir: DataDir, rowId: string, pages: Pages) returns (outcome: Outcome<RunError>)
    modifies dir
    ensures IssueNumber.IssueCountStrict(rowId).Failure? ==>
      && outcome == Fail(CountError(IssueNumber.NoDigits))
      && dir.dataCsv == old(dir.dataCsv) && dir.emailsTxt == old(dir.emailsTxt)
    ensures IssueNumber.IssueCountStrict(rowId).Success? ==>
      IssuesRan(ExtractAsWritten, pages, IssueNumber.IssueCountStrict(rowId).value,
        old(dir.dataCsv), old(dir.emailsTxt), outcome, dir.dataCsv, dir.emailsTxt)
  {
    var count := IssueNumber.IssueCountStrict(rowId);
    if count.Failure? {
      return Fail(CountError(count.error));
    }
    outcome := IssuesData(dir, pages, count.value, ExtractAsWritten);
  }
}
