/** `scraping_refactor.py`: a `DataProcessor` object keeps the emails found so far in a set
    field; `process_issue` appends the record line and adds a truthy email to the set, and
    `process_issues_data` runs it for issues 1..n and then rewrites `emails.txt` from the set. */
module ScrapingRefactor {
  import opened Wrappers
  import opened Records
  import opened Storage
  import opened Batch
  import IssueNumber
  import EmailPattern

  /** The state of `process_issues_data` after issues 1..m, from the file `csv0` and the set
      `set0`: `data.csv` has gained their lines, in issue order, and the set their truthy
      emails. */
  ghost predicate Processed(extract: Page -> Record, pages: Pages, m: nat, csv0: seq<string>,
    csv: seq<string>, set0: set<string>, emails: set<string>)
  {
    && Fetchable(pages, m)
    && csv == csv0 + Lines(Refactor, RecordsOf(extract, pages, m))
    && emails == set0 + Emails(Refactor, RecordsOf(extract, pages, m))
  }

  /** Processing issue m + 1 extends the state after issues 1..m to the state after issues
      1..m + 1. */
  lemma ProcessedStep(extract: Page -> Record, pages: Pages, m: nat, csv0: seq<string>,
    csv: seq<string>, set0: set<string>, emails: set<string>)
    requires Processed(extract, pages, m, csv0, csv, set0, emails) && m + 1 in pages
    ensures var r := extract(pages[m + 1]);
      Processed(extract, pages, m + 1, csv0, csv + [Line(Refactor, r)], set0,
        emails + KeptSet(Refactor, r.email))
  {
    LinesStep(Refactor, extract, pages, m, csv0, csv);
    EmailsStep(Refactor, extract, pages, m, set0, emails);
  }

  /** What `process_issues_data` leaves behind for the count n, from the files `csv0` and
      `txt0` and the set `set0`: it ends with a failed fetch of some issue k, in the state
      after issues 1..k-1 and with `emails.txt` untouched; or it passes, in the state after
      issues 1..n and with `emails.txt` holding each member of the set, once. */
  ghost predicate IssuesRan(extract: Page -> Record, pages: Pages, n: nat,
    csv0: seq<string>, txt0: seq<string>, set0: set<string>,
    outcome: Outcome<RunError>, csv: seq<string>, txt: seq<string>, emails: set<string>)
  {
    && (outcome.Pass? || outcome.error.FetchFailed?)
    && (outcome.Pass? ==>
      && Processed(extract, pages, n, csv0, csv, set0, emails)
      && NoDup(txt)
      && forall e :: e in txt <==> e in emails)
    && (outcome.Fail? ==>
      var k := outcome.error.issue;
      && 1 <= k <= n && k !in pages
      && Processed(extract, pages, k - 1, csv0, csv, set0, emails)
      && txt == txt0)
  }

  /** With no issue the run appends nothing, leaves the set as it was, and still rewrites
      `emails.txt` from it. */
  lemma NoIssuesStillSaves(extract: Page -> Record, pages: Pages, csv0: seq<string>,
    txt0: seq<string>, set0: set<string>, outcome: Outcome<RunError>, csv: seq<string>,
    txt: seq<string>, emails: set<string>)
    requires IssuesRan(extract, pages, 0, csv0, txt0, set0, outcome, csv, txt, emails)
    ensures outcome.Pass? && csv == csv0 && emails == set0
    ensures NoDup(txt) && forall e :: e in txt <==> e in set0
  {
    assert RecordsOf(extract, pages, 0) == [];
  }

  /** A run that passes appends exactly n lines, the k-th one for issue k. */
  lemma RunLines(extract: Page -> Record, pages: Pages, n: nat, csv0: seq<string>,
    txt0: seq<string>, set0: set<string>, outcome: Outcome<RunError>, csv: seq<string>,
    txt: seq<string>, emails: set<string>, k: int)
    requires IssuesRan(extract, pages, n, csv0, txt0, set0, outcome, csv, txt, emails)
    requires outcome.Pass? && 1 <= k <= n
    ensures |csv| == |csv0| + n
    ensures csv[|csv0| + k - 1] == Line(Refactor, extract(pages[k]))
  {
    LineOfIssue(Refactor, extract, pages, n, csv0, k);
  }

  /** A run from an empty set that passes leaves in `emails.txt` exactly the emails found in
      the bodies of issues 1..n. */
  lemma RunEmails(pages: Pages, n: nat, csv0: seq<string>, txt0: seq<string>,
    outcome: Outcome<RunError>, csv: seq<string>, txt: seq<string>, emails: set<string>)
    requires IssuesRan(Extract, pages, n, csv0, txt0, {}, outcome, csv, txt, emails)
    requires outcome.Pass?
    ensures forall e :: e in txt <==>
      exists k :: 1 <= k <= n && EmailPattern.RegexEmail(pages[k].body) == Some(e)
  {
    forall p ensures Kept(Refactor, Extract(p).email) <==> Extract(p).email.Some? {
      ExtractEmail(Refactor, p);
    }
    forall e ensures e in txt <==>
      exists k :: 1 <= k <= n && EmailPattern.RegexEmail(pages[k].body) == Some(e)
    {
      RecordEmails(Refactor, Extract, pages, n, e);
      forall k | 1 <= k <= n ensures Extract(pages[k]).email == EmailPattern.RegexEmail(pages[k].body) {
        ExtractEmail(Refactor, pages[k]);
      }
    }
  }

  /** `DataProcessor`: the output directory and `self.emails`. */
  class DataProcessor {
    const dir: DataDir
    var emails: set<string>

    /** `self.emails` holds only truthy values: neither `None` nor the empty text. */
    ghost predicate Valid()
      reads this
    {
      forall e :: e in emails ==> |e| > 0
    }

    /** `__init__`: an empty set. */
    constructor (dir: DataDir)
      ensures this.dir == dir && emails == {} && Valid()
    {
      this.dir := dir;
      emails := {};
    }

    /** `save_data`: one record line appended to `data.csv`. */
    method SaveData(r: Record)
      modifies dir
      ensures dir.dataCsv == old(dir.dataCsv) + [Line(Refactor, r)]
      ensures dir.emailsTxt == old(dir.emailsTxt)
    {
      dir.AppendData(Line(Refactor, r));
    }

    /** `process_issue` for the fetched page of an issue, with its fields read by `extract`
        (the script's own reading is `Extract`): the record line is saved and the email is
        added to the set when it is truthy. */
    method ProcessIssue(page: Page, extract: Page -> Record)
      requires Valid()
      modifies this, dir
      ensures Valid()
      ensures dir.dataCsv == old(dir.dataCsv) + [Line(Refactor, extract(page))]
      ensures dir.emailsTxt == old(dir.emailsTxt)
      ensures emails == old(emails) + KeptSet(Refactor, extract(page).email)
    {
      var r := extract(page);
      SaveData(r);
      if r.email.Some? && |r.email.value| > 0 {
        emails := emails + {r.email.value};
      }
    }

    /** The loop of `process_issues_data`: issues 1..n in increasing order, `done` of them
        processed. It stops early only at an issue whose fetch fails, with the lines and the
        emails of the earlier issues kept. Each step is `ProcessIssue`. The loop is proved for
        any per-issue extraction; `ProcessIssuesData` runs it with `Extract`. */
    method IssueLoop(pages: Pages, n: nat, extract: Page -> Record) returns (done: nat)
      requires Valid()
      modifies this, dir
      ensures Valid()
      ensures done <= n && (done < n ==> done + 1 !in pages)
      ensures Processed(extract, pages, done, old(dir.dataCsv), dir.dataCsv, old(emails), emails)
      ensures dir.emailsTxt == old(dir.emailsTxt)
    {
      done := 0;
      while done < n && done + 1 in pages
        invariant done <= n && Valid()
        invariant Processed(extract, pages, done, old(dir.dataCsv), dir.dataCsv, old(emails), emails)
        invariant dir.emailsTxt == old(dir.emailsTxt)
      {
        ProcessedStep(extract, pages, done, old(dir.dataCsv), dir.dataCsv, old(emails), emails);
        ProcessIssue(pages[done + 1], extract);
        done := done + 1;
      }
    }

    /** `save_emails`: `emails.txt` is rewritten with every truthy member of the set, each on
        a line of its own, once; as the set holds only truthy values, that is all of them. */
    method SaveEmails()
      requires Valid()
      modifies dir
      ensures NoDup(dir.emailsTxt)
      ensures forall e :: e in dir.emailsTxt <==> e in emails
      ensures dir.dataCsv == old(dir.dataCsv)
    {
      dir.TruncateEmails();
      var rest := emails;
      while rest != {}
        invariant rest <= emails
        invariant NoDup(dir.emailsTxt)
        invariant forall e :: e in dir.emailsTxt <==> e in emails - rest
        invariant dir.dataCsv == old(dir.dataCsv)
        decreases |rest|
      {
        var e :| e in rest;
        if |e| > 0 {
          NoDupAppend(dir.emailsTxt, e);
          dir.AppendEmail(e);
        }
        rest := rest - {e};
      }
    }

    /** `process_issues_data` once the count n is read. */
    method IssuesData(pages: Pages, n: nat, extract: Page -> Record)
      returns (outcome: Outcome<RunError>)
      requires Valid()
      modifies this, dir
      ensures Valid()
      ensures IssuesRan(extract, pages, n, old(dir.dataCsv), old(dir.emailsTxt), old(emails),
        outcome, dir.dataCsv, dir.emailsTxt, emails)
    {
      var done := IssueLoop(pages, n, extract);
      if done < n {
        return Fail(FetchFailed(done + 1));
      }
      SaveEmails();
      return Pass;
    }

    /** `process_issues_data`: the count is `get_issue_number` of the row id, 0 when it has
        no digit; then the issues are processed and the emails saved. */
    method ProcessIssuesData(rowId: string, pages: Pages) returns (outcome: Outcome<RunError>)
      requires Valid()
      modifies this, dir
      ensures Valid()
      ensures IssuesRan(Extract, pages, IssueNumber.IssueCountOrZero(rowId), old(dir.dataCsv),
        old(dir.emailsTxt), old(emails), outcome, dir.dataCsv, dir.emailsTxt, emails)
    {
      outcome := IssuesData(pages, IssueNumber.IssueCountOrZero(rowId), Extract);
    }
  }
}
