/** One issue turned into one record and one line of `data/data.csv`. */
module Records {
  import opened Wrappers
  import opened Text
  import EmailPattern
  import UrlPattern
  import opened Classify

  /** What is read from an issue page: the author, the title and the body text. */
  datatype Page = Page(user: string, title: string, body: string)

  /** The six values written for an issue; an absent value is `None` in Python and `null`
      in C#. */
  datatype Record = Record(
    user: string,
    title: string,
    email: Option<string>,
    form: Option<Form>,
    contract: Contract,
    url: Option<string>)

  /** The four programs: `scraping.py`, `scraping_refactor.py`,
      `scraping_refactor_multiprocessing.py` and `scraping_cs.cs`. */
  datatype Variant = FirstScript | Refactor | Multiprocessing | CSharp

  /** The column names, in the order of the record fields. */
  const Columns: seq<string> :=
    ["user", "title", "email", "work_form_result", "work_type_result", "text_url"]

  /** The fields of an issue: the email is searched in the body as it is; the work form,
      the contract type and the URL in the lower-cased body. */
  function Extract(p: Page): Record {
    var text := Lower(p.body);
    Record(p.user, p.title, EmailPattern.RegexEmail(p.body), WorkForm(text), WorkType(text),
      UrlPattern.RegexUrl(text))
  }

  /** The same fields as the first script computes them, with its `work_form`. */
  function ExtractAsWritten(p: Page): Record {
    var text := Lower(p.body);
    Record(p.user, p.title, EmailPattern.RegexEmail(p.body), WorkFormAsWritten(text),
      WorkType(text), UrlPattern.RegexUrl(text))
  }

  /** A found email is non-empty and holds no comma (it is made of pattern characters). */
  lemma EmailField(body: string)
    requires EmailPattern.RegexEmail(body).Some?
    ensures var e := EmailPattern.RegexEmail(body).value;
      |e| > 0 && ',' !in e
  {
    EmailPattern.EmailHasOneAtSign(body);
    EmailPattern.EmailCharset(body);
  }

  /** The URL stored for a body starts with "http://" or "https://", holds no white space
      and, being taken from the lower-cased body, no upper-case letter. */
  lemma UrlField(body: string)
    requires UrlPattern.RegexUrl(Lower(body)).Some?
    ensures var u := UrlPattern.RegexUrl(Lower(body)).value;
      && ((|u| >= 7 && u[..7] == "http://") || (|u| >= 8 && u[..8] == "https://"))
      && forall x :: 0 <= x < |u| ==> !IsUpperLetter(u[x]) && !IsSpace(u[x])
  {
    var text := Lower(body);
    UrlPattern.UrlOfLowerTextIsLower(text);
    UrlPattern.UrlHasNoSpace(text);
    UrlPattern.UrlStartsWithScheme(text);
  }

  /** What a program prints for an absent value: a Python f-string prints `None`, C#
      interpolation prints nothing for `null`. */
  function AbsentText(v: Variant): string {
    if v == CSharp then "" else "None"
  }

  /** How a program prints an optional value: the value itself, or the program's text for
      an absent one. */
  function Show(v: Variant, o: Option<string>): (t: string)
    ensures o.Some? ==> t == o.value
    ensures o.None? ==> t == AbsentText(v)
  {
    match o
    case None => AbsentText(v)
    case Some(x) => x
  }

  function FormText(f: Option<Form>): Option<string> {
    match f
    case None => None
    case Some(g) => Some(FormLabel(g))
  }

  /** The six printed fields of a record, in column order. */
  function Fields(v: Variant, r: Record): (fs: seq<string>)
    ensures |fs| == 6
  {
    [r.user, r.title, Show(v, r.email), Show(v, FormText(r.form)), ContractLabel(r.contract),
      Show(v, r.url)]
  }

  /** The fields joined by single commas. */
  function Join(fs: seq<string>): (line: string)
    requires |fs| > 0
  {
    if |fs| == 1 then fs[0] else fs[0] + "," + Join(fs[1..])
  }

  /** Splitting a line at every comma, the way a CSV reader without quoting reads it. */
  function Split(line: string): (fs: seq<string>)
    ensures |fs| > 0
    decreases |line|
  {
    if |line| == 0 then [""]
    else if line[0] == ',' then [""] + Split(line[1..])
    else var rest := Split(line[1..]); [[line[0]] + rest[0]] + rest[1..]
  }

  lemma {:induction false} SplitNoComma(s: string)
    requires ',' !in s
    ensures Split(s) == [s]
    decreases |s|
  {
    if |s| > 0 {
      assert ',' !in s[1..] by {
        forall x | 0 <= x < |s| - 1 ensures s[1..][x] != ',' {
          assert s[1..][x] == s[x + 1];
        }
      }
      SplitNoComma(s[1..]);
      assert [s[0]] + s[1..] == s;
    }
  }

  lemma {:induction false} SplitCons(a: string, b: string)
    requires ',' !in a
    ensures Split(a + "," + b) == [a] + Split(b)
    decreases |a|
  {
    if |a| == 0 {
      assert a + "," + b == [','] + b;
      assert (a + "," + b)[1..] == b;
    } else {
      assert ',' !in a[1..] by {
        forall x | 0 <= x < |a| - 1 ensures a[1..][x] != ',' {
          assert a[1..][x] == a[x + 1];
        }
      }
      SplitCons(a[1..], b);
      assert (a + "," + b)[1..] == a[1..] + "," + b;
      assert [a[0]] + a[1..] == a;
    }
  }

  /** Joining comma-free fields and splitting the line gives the fields back. */
  lemma {:induction false} SplitJoin(fs: seq<string>)
    requires |fs| > 0
    requires forall k :: 0 <= k < |fs| ==> ',' !in fs[k]
    ensures Split(Join(fs)) == fs
    decreases |fs|
  {
    if |fs| == 1 {
      SplitNoComma(fs[0]);
    } else {
      SplitJoin(fs[1..]);
      SplitCons(fs[0], Join(fs[1..]));
      assert [fs[0]] + fs[1..] == fs;
    }
  }

  /** The line `save_data` / `SaveData` writes for a record: the six fields joined by
      five commas. */
  function Line(v: Variant, r: Record): string {
    Join(Fields(v, r))
  }

  /** When the author, the title and the URL hold no comma, a record line splits back
      into exactly its six fields. */
  lemma LineRoundTrip(v: Variant, r: Record)
    requires ',' !in r.user && ',' !in r.title
    requires r.email.Some? ==> ',' !in r.email.value
    requires r.url.Some? ==> ',' !in r.url.value
    ensures Split(Line(v, r)) == Fields(v, r)
  {
    var fs := Fields(v, r);
    assert ',' !in fs[3] by {
      match r.form
      case None =>
      case Some(g) => assert g == Remote || g == Local || g == Hybrid;
    }
    assert ',' !in fs[4] by {
      assert r.contract == Clt || r.contract == Pj || r.contract == Ni;
    }
    SplitJoin(fs);
  }

  /** The line `clean_local_data` writes first,
      `user,title,email,work_form_result,work_type_result,text_url`. */
  function Header(): (h: string)
    ensures Split(h) == Columns
  {
    assert forall k :: 0 <= k < |Columns| ==> ',' !in Columns[k];
    SplitJoin(Columns);
    Join(Columns)
  }

  /** An absent email, form or URL is printed as `None` by Python and left empty by C#. */
  lemma AbsentValues(r: Record)
    requires r.email.None? && r.form.None? && r.url.None?
    ensures Fields(Refactor, r)[2] == "None" && Fields(Refactor, r)[3] == "None"
    ensures Fields(Refactor, r)[5] == "None"
    ensures Fields(CSharp, r)[2] == "" && Fields(CSharp, r)[3] == "" && Fields(CSharp, r)[5] == ""
  {
  }
}
