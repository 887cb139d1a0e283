/** `scraping_cs.cs`: a `DataProcessor` object keeps the emails found so far in a
    `HashSet<string>`; `ProcessIssue` appends the record line and adds a non-null email to
    the set, and `ProcessIssuesData` runs it for issues 1..n and then rewrites `emails.txt`
    from the set. */
module ScrapingCs {
  import opened Wrappers
  import opened Records
  import opened Storage
  import opened Batch
  import IssueNumber
  import EmailPattern

  /** The state of `ProcessIssuesData` after issues 1..m, from the file `csv0` and the set
      `set0`: `data.csv` has gained their lines, in issue order, and the set their non-null
      emails. */
  ghost predicate Processed(extract: Page -> Record, pages: Pages, m: nat, csv0: seq<string>,
    csv: seq<string>, set0: set<string>, emails: set<string>)
  {
    && Fetchable(pages, m)
    && csv == csv0 + Lines(CSharp, RecordsOf(extract, pages, m))
    && emails == set0 + Emails(CSharp, RecordsOf(extract, pages, m))
  }

  /** Processing issue m + 1 extends the state after issues 1..m to the state after issues
      1..m + 1. */
  lemma ProcessedStep(extract: Page -> Record, pages: Pages, m: nat, csv0: seq<string>,
    csv: seq<string>, set0: set<string>, emails: set<string>)
    requires Processed(extract, pages, m, csv0, csv, set0, emails) && m + 1 in pages
    ensures var r := extract(pages[m + 1]);
      Processed(extract, pages, m + 1, csv0, csv + [Line(CSharp, r)], set0,
        emails + KeptSet(CSharp, r.email))
  {
    LinesStep(CSharp, extract, pages, m, csv0, csv);
    EmailsStep(CSharp, extract, pages, m, set0, emails);
  }

  /** What the loop and `SaveEmails` leave behind for the count n, from the files `csv0`
      and `txt0` and the set `set0`: the run ends with a failed fetch of some issue k, in
      the state after issues 1..k-1 and with `emails.txt` untouched; or it passes, in the
      state after issues 1..n and with `emails.txt` holding each member of the set, once. */
  ghost predicate IssuesRan(extract: Page -> Record, pages: Pages, n: nat,
    csv0: seq<string>, txt0: seq<string>, set0: set<string>,
    outcome: Outcome<RunError>, csv: seq<string>, txt: seq<string>, emails: set<string>)
  {
    && (outcome.Pass? || outcome.error.FetchFailed?)
    && (outcome.Pass? ==>
      && Processed(extract, pages, n, csv0, csv, set0, emails)
      && NoDup(txt)
      && forall e :: e in txt <==> e in emails)
    && (outcome.Fail? ==>
      var k := outcome.error.issue;
      && 1 <= k <= n && k !in pages
      && Processed(extract, pages, k - 1, csv0, csv, set0, emails)
      && txt == txt0)
  }

  /** A run from an empty set that passes leaves in `emails.txt` exactly the emails found in
      the bodies of issues 1..n. */
  lemma RunEmails(pages: Pages, n: nat, csv0: seq<string>, txt0: seq<string>,
    outcome: Outcome<RunError>, csv: seq<string>, txt: seq<string>, emails: set<string>)
    requires IssuesRan(Extract, pages, n, csv0, txt0, {}, outcome, csv, txt, emails)
    requires outcome.Pass?
    ensures forall e :: e in txt <==>
      exists k :: 1 <= k <= n && EmailPattern.RegexEmail(pages[k].body) == Some(e)
  {
    forall p ensures Kept(CSharp, Extract(p).email) <==> Extract(p).email.Some? {
      ExtractEmail(CSharp, p);
    }
    forall e ensures e in txt <==>
      exists k :: 1 <= k <= n && EmailPattern.RegexEmail(pages[k].body) == Some(e)
    {
      RecordEmails(CSharp, Extract, pages, n, e);
      forall k | 1 <= k <= n ensures Extract(pages[k]).email == EmailPattern.RegexEmail(pages[k].body) {
        ExtractEmail(CSharp, pages[k]);
      }
    }
  }

  /** A run that passes appends exactly n lines, the k-th one for issue k, with `null`
      values written as empty fields. */
  lemma RunLines(extract: Page -> Record, pages: Pages, n: nat, csv0: seq<string>,
    txt0: seq<string>, set0: set<string>, outcome: Outcome<RunError>, csv: seq<string>,
    txt: seq<string>, emails: set<string>, k: int)
    requires IssuesRan(extract, pages, n, csv0, txt0, set0, outcome, csv, txt, emails)
    requires outcome.Pass? && 1 <= k <= n
    ensures |csv| == |csv0| + n
    ensures csv[|csv0| + k - 1] == Line(CSharp, extract(pages[k]))
  {
    LineOfIssue(CSharp, extract, pages, n, csv0, k);
  }

  /** `DataProcessor`: the output directory and the `emails` set. */
  class DataProcessor {
    const dir: DataDir
    var emails: set<string>

    /** The constructor: an empty set. */
    constructor (dir: DataDir)
      ensures this.dir == dir && emails == {}
    {
      this.dir := dir;
      emails := {};
    }

    /** `SaveData`: one record line appended to `data.csv`. */
    method SaveData(r: Record)
      modifies dir
      ensures dir.dataCsv == old(dir.dataCsv) + [Line(CSharp, r)]
      ensures dir.emailsTxt == old(dir.emailsTxt)
    {
      dir.AppendData(Line(CSharp, r));
    }

    /** `ProcessIssue` for the fetched page of an issue, with its fields read by `extract`
        (the program's own reading is `Extract`): the record line is saved and a non-null
        email is added to the set. */
    method ProcessIssue(page: Page, extract: Page -> Record)
      modifies this, dir
      ensures dir.dataCsv == old(dir.dataCsv) + [Line(CSharp, extract(page))]
      ensures dir.emailsTxt == old(dir.emailsTxt)
      ensures emails == old(emails) + KeptSet(CSharp, extract(page).email)
    {
      var r := extract(page);
      SaveData(r);
      if r.email.Some? {
        emails := emails + {r.email.value};
      }
    }

    /** The `for` loop of `ProcessIssuesData`: issues 1..n in increasing order, `done` of
        them processed, each by `ProcessIssue`. It stops early only at an issue whose fetch
        fails. The loop is proved for any per-issue extraction; `ProcessIssuesData` runs it
        with `Extract`. */
    method IssueLoop(pages: Pages, n: nat, extract: Page -> Record) returns (done: nat)
      modifies this, dir
      ensures done <= n && (done < n ==> done + 1 !in pages)
      ensures Processed(extract, pages, done, old(dir.dataCsv), dir.dataCsv, old(emails), emails)
      ensures dir.emailsTxt == old(dir.emailsTxt)
    {
      done := 0;
      while done < n && done + 1 in pages
        invariant done <= n
        invariant Processed(extract, pages, done, old(dir.dataCsv), dir.dataCsv, old(emails), emails)
        invariant dir.emailsTxt == old(dir.emailsTxt)
      {
        ProcessedStep(extract, pages, done, old(dir.dataCsv), dir.dataCsv, old(emails), emails);
        ProcessIssue(pages[done + 1], extract);
        done := done + 1;
      }
    }

    /** `SaveEmails`: `emails.txt` is overwritten with every non-null member of the set, each
        on a line of its own, once. */
    method SaveEmails()
      modifies dir
      ensures NoDup(dir.emailsTxt)
      ensures forall e :: e in dir.emailsTxt <==> e in emails
      ensures dir.dataCsv == old(dir.dataCsv)
    {
      dir.TruncateEmails();
      var rest := emails;
      while rest != {}
        invariant rest <= emails
        invariant NoDup(dir.emailsTxt)
        invariant forall e :: e in dir.emailsTxt <==> e in emails - rest
        invariant dir.dataCsv == old(dir.dataCsv)
        decreases |rest|
      {
        var e :| e in rest;
        NoDupAppend(dir.emailsTxt, e);
        dir.AppendEmail(e);
        rest := rest - {e};
      }
    }

    /** `ProcessIssuesData` once the count n is read. */
    method IssuesData(pages: Pages, n: nat, extract: Page -> Record)
      returns (outcome: Outcome<RunError>)
      modifies this, dir
      ensures IssuesRan(extract, pages, n, old(dir.dataCsv), old(dir.emailsTxt), old(emails),
        outcome, dir.dataCsv, dir.emailsTxt, emails)
    {
      var done := IssueLoop(pages, n, extract);
      if done < n {
        return Fail(FetchFailed(done + 1));
      }
      SaveEmails();
      return Pass;
    }

    /** `ProcessIssuesData` for the listing page `content`: a count that `int.Parse` cannot
        hold ends the run before anything is written; otherwise issues 1..n are processed
        and the emails saved. */
    method ProcessIssuesData(content: string, pages: Pages) returns (outcome: Outcome<RunError>)
      modifies this, dir
      ensures IssueNumber.IssueCountCs(content).Failure? ==>
        && outcome == Fail(CountError(IssueNumber.Overflow))
        && dir.dataCsv == old(dir.dataCsv) && dir.emailsTxt == old(dir.emailsTxt)
        && emails == old(emails)
      ensures IssueNumber.IssueCountCs(content).Success? ==>
        IssuesRan(Extract, pages, IssueNumber.IssueCountCs(content).value, old(dir.dataCsv),
          old(dir.emailsTxt), old(emails), outcome, dir.dataCsv, dir.emailsTxt, emails)
    {
      var count := IssueNumber.IssueCountCs(content);
      if count.Failure? {
        return Fail(CountError(count.error));
      }
      outcome := IssuesData(pages, count.value, Extract);
    }
  }
}
