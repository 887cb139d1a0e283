/** `scraping_refactor_multiprocessing.py`: a `DataProcessor` object that keeps no emails in
    memory. `save_data` appends a truthy email to `emails.txt` at once and the record line
    to `data.csv`; `main` empties both files, processes issues 1..n, and then rewrites
    `emails.txt` without its duplicate lines. The joblib workers are modelled as one worker
    taking the issues in increasing order. */
module ScrapingMultiprocessing {
  import opened Wrappers
  import opened Records
  import opened Storage
  import opened Batch
  import IssueNumber
  import EmailPattern

  /** The state after issues 1..m, from the files `csv0` and `txt0`: `data.csv` has gained
      their lines and `emails.txt` their truthy emails, both in issue order. */
  ghost predicate Processed(extract: Page -> Record, pages: Pages, m: nat, csv0: seq<string>,
    csv: seq<string>, txt0: seq<string>, txt: seq<string>)
  {
    && Fetchable(pages, m)
    && csv == csv0 + Lines(Multiprocessing, RecordsOf(extract, pages, m))
    && txt == txt0 + EmailLog(Multiprocessing, RecordsOf(extract, pages, m))
  }

  /** Processing issue m + 1 extends the state after issues 1..m to the state after issues
      1..m + 1. */
  lemma ProcessedStep(extract: Page -> Record, pages: Pages, m: nat, csv0: seq<string>,
    csv: seq<string>, txt0: seq<string>, txt: seq<string>)
    requires Processed(extract, pages, m, csv0, csv, txt0, txt) && m + 1 in pages
    ensures var r := extract(pages[m + 1]);
      Processed(extract, pages, m + 1, csv0, csv + [Line(Multiprocessing, r)], txt0,
        txt + (if Kept(Multiprocessing, r.email) then [r.email.value] else []))
  {
    LinesStep(Multiprocessing, extract, pages, m, csv0, csv);
    EmailLogStep(Multiprocessing, extract, pages, m, txt0, txt);
  }

  /** What `process_issues_data` leaves behind for the count n: it ends with a failed fetch
      of some issue k, in the state after issues 1..k-1; or it passes, in the state after
      issues 1..n. */
  ghost predicate IssuesRan(extract: Page -> Record, pages: Pages, n: nat, csv0: seq<string>,
    txt0: seq<string>, outcome: Outcome<RunError>, csv: seq<string>, txt: seq<string>)
  {
    && (outcome.Pass? || outcome.error.FetchFailed?)
    && (outcome.Pass? ==> Processed(extract, pages, n, csv0, csv, txt0, txt))
    && (outcome.Fail? ==>
      var k := outcome.error.issue;
      && 1 <= k <= n && k !in pages
      && Processed(extract, pages, k - 1, csv0, csv, txt0, txt))
  }

  /** What `main` leaves behind for the count n, with the fields of each issue read by
      `extract` (the script's own reading is `Extract`): `data.csv` is the header followed
      by the lines of the issues processed. When every fetch succeeds, `emails.txt` holds each
      truthy email of issues 1..n once; when the fetch of issue k fails, the run stops there
      with `emails.txt` holding the truthy emails of issues 1..k-1 in issue order,
      duplicates included. */
  ghost predicate MainRan(extract: Page -> Record, pages: Pages, n: nat,
    outcome: Outcome<RunError>, csv: seq<string>, txt: seq<string>)
  {
    && (outcome.Pass? || outcome.error.FetchFailed?)
    && (outcome.Pass? ==>
      && Fetchable(pages, n)
      && csv == [Header()] + Lines(Multiprocessing, RecordsOf(extract, pages, n))
      && NoDup(txt)
      && forall e :: e in txt <==> e in Emails(Multiprocessing, RecordsOf(extract, pages, n)))
    && (outcome.Fail? ==>
      var k := outcome.error.issue;
      && 1 <= k <= n && k !in pages
      && Processed(extract, pages, k - 1, [Header()], csv, [], txt))
  }

  /** A run of `main` that passes leaves in `emails.txt` exactly the emails found in the
      bodies of issues 1..n, each once. */
  lemma MainEmails(pages: Pages, n: nat, outcome: Outcome<RunError>, csv: seq<string>,
    txt: seq<string>)
    requires MainRan(Extract, pages, n, outcome, csv, txt) && outcome.Pass?
    ensures NoDup(txt)
    ensures forall e :: e in txt <==>
      exists k :: 1 <= k <= n && EmailPattern.RegexEmail(pages[k].body) == Some(e)
  {
    forall p ensures Kept(Multiprocessing, Extract(p).email) <==> Extract(p).email.Some? {
      ExtractEmail(Multiprocessing, p);
    }
    forall e ensures e in txt <==>
      exists k :: 1 <= k <= n && EmailPattern.RegexEmail(pages[k].body) == Some(e)
    {
      RecordEmails(Multiprocessing, Extract, pages, n, e);
      forall k | 1 <= k <= n ensures Extract(pages[k]).email == EmailPattern.RegexEmail(pages[k].body) {
        ExtractEmail(Multiprocessing, pages[k]);
      }
    }
  }

  /** A run of `main` that passes leaves a header and then exactly n lines, the k-th one
      after the header for issue k. */
  lemma MainLines(extract: Page -> Record, pages: Pages, n: nat, outcome: Outcome<RunError>,
    csv: seq<string>, txt: seq<string>, k: int)
    requires MainRan(extract, pages, n, outcome, csv, txt) && outcome.Pass? && 1 <= k <= n
    ensures |csv| == n + 1 && csv[0] == Header()
    ensures csv[k] == Line(Multiprocessing, extract(pages[k]))
  {
    LineOfIssue(Multiprocessing, extract, pages, n, [Header()], k);
  }

  /** `DataProcessor`: the output directory. */
  class DataProcessor {
    const dir: DataDir

    /** `__init__`: only the paths of the two files. */
    constructor (dir: DataDir)
      ensures this.dir == dir
    {
      this.dir := dir;
    }

    /** `save_data`: a truthy email appended to `emails.txt`, then the record line to
        `data.csv`. */
    method SaveData(r: Record)
      modifies dir
      ensures dir.emailsTxt == old(dir.emailsTxt) +
        (if Kept(Multiprocessing, r.email) then [r.email.value] else [])
      ensures dir.dataCsv == old(dir.dataCsv) + [Line(Multiprocessing, r)]
    {
      if r.email.Some? && |r.email.value| > 0 {
        dir.AppendEmail(r.email.value);
      }
      dir.AppendData(Line(Multiprocessing, r));
    }

    /** `process_issue` for the fetched page of an issue, with its fields read by `extract`
        (the script's own reading is `Extract`). */
    method ProcessIssue(page: Page, extract: Page -> Record)
      modifies dir
      ensures var o := extract(page).email;
        dir.emailsTxt == old(dir.emailsTxt) + (if Kept(Multiprocessing, o) then [o.value] else [])
      ensures dir.dataCsv == old(dir.dataCsv) + [Line(Multiprocessing, extract(page))]
    {
      SaveData(extract(page));
    }

    /** The jobs of `process_issues_data`: issues 1..n, `done` of them processed, each by
        `ProcessIssue`. It stops early only at an issue whose fetch fails. The loop is proved
        for any per-issue extraction; `ProcessIssuesData` runs it with `Extract`. */
    method IssueLoop(pages: Pages, n: nat, extract: Page -> Record) returns (done: nat)
      modifies dir
      ensures done <= n && (done < n ==> done + 1 !in pages)
      ensures Processed(extract, pages, done, old(dir.dataCsv), dir.dataCsv, old(dir.emailsTxt),
        dir.emailsTxt)
    {
      done := 0;
      while done < n && done + 1 in pages
        invariant done <= n
        invariant Processed(extract, pages, done, old(dir.dataCsv), dir.dataCsv,
          old(dir.emailsTxt), dir.emailsTxt)
      {
        ProcessedStep(extract, pages, done, old(dir.dataCsv), dir.dataCsv, old(dir.emailsTxt),
          dir.emailsTxt);
        ProcessIssue(pages[done + 1], extract);
        done := done + 1;
      }
    }

    /** `process_issues_data` once the count n is read. */
    method IssuesData(pages: Pages, n: nat, extract: Page -> Record)
      returns (outcome: Outcome<RunError>)
      modifies dir
      ensures IssuesRan(extract, pages, n, old(dir.dataCsv), old(dir.emailsTxt), outcome,
        dir.dataCsv, dir.emailsTxt)
    {
      var done := IssueLoop(pages, n, extract);
      if done < n {
        return Fail(FetchFailed(done + 1));
      }
      return Pass;
    }

    /** `process_issues_data`: the count is `get_issue_number` of the row id, 0 when it has
        no digit; then issues 1..n are processed. */
    method ProcessIssuesData(rowId: string, pages: Pages) returns (outcome: Outcome<RunError>)
      modifies dir
      ensures IssuesRan(Extract, pages, IssueNumber.IssueCountOrZero(rowId), old(dir.dataCsv),
        old(dir.emailsTxt), outcome, dir.dataCsv, dir.emailsTxt)
    {
      outcome := IssuesData(pages, IssueNumber.IssueCountOrZero(rowId), Extract);
    }

    /** `clean_local_data`: `data.csv` holds only the header, and `emails.txt` is emptied
        (the `print("")` inside goes to the console, not to the file). */
    method CleanLocalData()
      modifies dir
      ensures dir.dataCsv == [Header()]
      ensures dir.emailsTxt == []
    {
      dir.ResetData(Header());
      dir.TruncateEmails();
    }

    /** `clean_email_duplicates`: the lines of `emails.txt` are gathered in a set and the
        file is rewritten with each of them once. */
    method CleanEmailDuplicates()
      modifies dir
      ensures NoDup(dir.emailsTxt)
      ensures forall e :: e in dir.emailsTxt <==> e in old(dir.emailsTxt)
      ensures dir.dataCsv == old(dir.dataCsv)
    {
      var lines := dir.emailsTxt;
      var emails: set<string> := {};
      for i := 0 to |lines|
        invariant forall e :: e in emails <==> e in lines[..i]
      {
        assert lines[..i + 1] == lines[..i] + [lines[i]];
        emails := emails + {lines[i]};
      }
      assert lines[..|lines|] == lines;
      dir.TruncateEmails();
      var rest := emails;
      while rest != {}
        invariant rest <= emails
        invariant NoDup(dir.emailsTxt)
        invariant forall e :: e in dir.emailsTxt <==> e in emails - rest
        invariant dir.dataCsv == old(dir.dataCsv)
        decreases |rest|
      {
        var e :| e in rest;
        NoDupAppend(dir.emailsTxt, e);
        dir.AppendEmail(e);
        rest := rest - {e};
      }
    }

    /** `main`: both files are reset, the issues are processed, and, when no fetch failed,
        the duplicate emails are removed. */
    method Run(rowId: string, pages: Pages) returns (outcome: Outcome<RunError>)
      modifies dir
      ensures MainRan(Extract, pages, IssueNumber.IssueCountOrZero(rowId), outcome,
        dir.dataCsv, dir.emailsTxt)
    {
      CleanLocalData();
      outcome := ProcessIssuesData(rowId, pages);
      if outcome.Pass? {
        ghost var n := IssueNumber.IssueCountOrZero(rowId);
        EmailLogSet(Multiprocessing, RecordsOf(Extract, pages, n));
        CleanEmailDuplicates();
      }
    }
  }
}
