# GitHub job-issue scraper, modelled in Dafny

The repository scrapes the job posts of a GitHub issue tracker. It reads the number of the
newest issue from the listing page, fetches issues 1..n, and from each takes the author,
the title and the body. In the body it finds the first email address and, in the
lower-cased body, the work form (remote, local, hybrid), the contract type (CLT, PJ,
not informed) and the first URL. It appends one comma-joined line per issue to
`data/data.csv`, and it writes the distinct emails to `data/emails.txt`.

There are four programs:
- `scraping.py`, a script of module-level functions;
- `scraping_refactor.py`, a `DataProcessor` class with a set field;
- `scraping_refactor_multiprocessing.py`, which appends emails as they are found and
  removes duplicates at the end;
- `scraping_cs.cs`, a C# port.

The model is one module per concern:
- `Text`: character classes, substring search, ASCII lower-casing, and the generic
  leftmost-first search loop of a regex engine.
- `EmailPattern`, `UrlPattern`: hand-written scanners for the two regexes, each proved
  against a declarative definition of its pattern. The result is absent exactly when no
  match exists; otherwise it is the leftmost, longest match.
- `Classify`: `work_form` (corrected and as written in `scraping.py`) and `work_type`.
- `IssueNumber`: the digit-run parse of the Python programs, and the tag regex with
  `int.Parse` of the C# program.
- `Records`: the record, the line format of each program (`None` versus empty text), and
  the header.
- `Batch`: what a run over issues 1..n produces, as functions of the fetched pages.
- `Storage`: the two output files, as a class holding sequences of lines.
- `Scraping`, `ScrapingRefactor`, `ScrapingMultiprocessing`, `ScrapingCs`: the four
  programs' loops and file writes, as imperative methods.

Each program's loop is proved against the `Batch` functions. The end state of a run is
summarised by a predicate (`IssuesRan`, `MainRan`). Lemmas then relate that state to the
fetched pages: which lines in which order, and which emails.

Issue pages are an input map from issue number to (author, title, body). A number that is
not in the map is a fetch that fails; in every program that raises an exception and ends
the run.

## Model

| member | source | states |
|---|---|---|
| Text.LowerChar | scraping_refactor.py:25 | definition, a case split of its body: upper-case ASCII letters move down by 32 and everything else is unchanged, so the result is never an upper-case ASCII letter |
| Text.Lower | scraping_refactor.py:25 | `lower()` keeps the length, leaves no upper-case ASCII letter, lower-cases each upper-case letter and keeps every other character |
| Text.RunEnd | scraping_refactor.py:41 | a greedy `p*` from i ends at the first character outside the class, or at the end of the text; everything before that is in the class |
| Text.Contains | scraping_refactor.py:45-49 | definition of Python's `in` and C#'s `Contains` on strings: the keyword is a prefix of the text or of some suffix of it; its partner is `Text.ContainsIffOccurs` |
| Text.ContainsIffOccurs | scraping_refactor.py:45-49 | the `in` substring test holds exactly when the keyword occurs at some position of the text |
| Text.Leftmost | scraping_refactor.py:41-42 | a search result starts inside the text, at a position where the attempt succeeds, and ends where that attempt ends |
| Text.LeftmostSpec | scraping_refactor.py:41-42 | every attempt before the returned start fails; no result means every attempt in the text fails |
| EmailPattern.LastDot | scraping_refactor.py:41 | backtracking the domain part stops at the last '.' followed by two letters, with no such position after it |
| EmailPattern.EmailAt | scraping_refactor.py:41 | one attempt at start i ends after i and inside the text |
| EmailPattern.EmailAtSound | scraping_refactor.py:41 | what the attempt at i finds is a match of the email pattern |
| EmailPattern.EmailAtLongest | scraping_refactor.py:41 | every match from i makes the attempt at i succeed, ending no earlier than that match |
| EmailPattern.EmailAtNone | scraping_refactor.py:41 | a failed attempt at i means no match starts at i |
| EmailPattern.EmailLongestAt | scraping_refactor.py:41 | no match from i is longer than the attempt's result |
| EmailPattern.RegexEmail | scraping.py:35-40 | definition: the leftmost-first search (`Text.Leftmost`) with the hand-written scanner `EmailPattern.EmailAt` as the attempt at each start; its partner is `EmailPattern.RegexEmailSpec` |
| EmailPattern.RegexEmailSpec | scraping.py:35-40 | `regex_email` is None exactly when no substring matches the pattern; otherwise it is the leftmost, longest match |
| EmailPattern.NoAtSignNoEmail | scraping_refactor_multiprocessing.py:83-84 | text without an '@' gives None |
| EmailPattern.EmailIsMaximalSubstring | scraping_refactor_multiprocessing.py:83-84 | a found email occurs in the text, and the character after it, if any, is not a letter |
| EmailPattern.EndNotFollowedByLetter | scraping_refactor_multiprocessing.py:83 | the first match is never followed by a letter |
| EmailPattern.EmailHasOneAtSign | scraping_refactor_multiprocessing.py:83-84 | a found email holds exactly one '@', and not at its start |
| EmailPattern.EmailEndsWithLabel | scraping_refactor_multiprocessing.py:83-84 | a found email ends in '.' followed by two or more letters |
| EmailPattern.EmailCharset | scraping_cs.cs:77-79 | a found email is made only of pattern characters and the '@' |
| UrlPattern.SchemeEnd | scraping_refactor.py:63 | a recognised `https?://` is a scheme at i |
| UrlPattern.HostFrom | scraping_refactor.py:63 | the host starts after `www.` exactly when `www.` is followed by a host and a label; otherwise right after the scheme |
| UrlPattern.Backtrack | scraping_refactor.py:63 | giving back `[^\s]*` stops at the last word boundary, which is no earlier than the end of the last label |
| UrlPattern.UrlAt | scraping_refactor.py:63 | one attempt at start i ends after i and inside the text |
| UrlPattern.UrlAtSound | scraping_refactor.py:63 | what the attempt at i finds is a match of the URL pattern |
| UrlPattern.UrlAtLongest | scraping_refactor.py:63 | every match from i makes the attempt at i succeed, ending no earlier |
| UrlPattern.UrlAtNone | scraping_refactor.py:63 | a failed attempt at i means no match starts at i |
| UrlPattern.UrlAtMaximal | scraping_refactor.py:63 | no match from i is longer than the attempt's result |
| UrlPattern.RegexUrl | scraping.py:60-65 | definition: the leftmost-first search with the hand-written scanner `UrlPattern.UrlAt` as the attempt at each start; its partner is `UrlPattern.RegexUrlSpec` |
| UrlPattern.RegexUrlSpec | scraping.py:60-65 | `regex_url` is None exactly when no substring matches; otherwise it is the leftmost, longest match |
| UrlPattern.UrlStartsWithScheme | scraping_refactor_multiprocessing.py:132-133 | a found URL starts with "http://" or "https://" |
| UrlPattern.UrlHasNoSpace | scraping_refactor_multiprocessing.py:132-133 | a found URL holds no white space |
| UrlPattern.UrlOfLowerTextIsLower | scraping_refactor_multiprocessing.py:56 | from text without upper-case letters, the found URL has none |
| Classify.WorkForm | scraping_cs.cs:82-100 | definition of `work_form` in the three later programs: the remote keywords are tested first, then the local ones, then the hybrid ones, and `None` comes out when none occurs; its partner is `Classify.WorkFormPriority` |
| Classify.WorkFormAsWritten | scraping.py:42-50 | definition of `work_form` as the first script writes it, with the second test read as `"presencial" or ("local" in text)`; its partners are `Classify.AsWrittenNeverHybridOrNone` and `Classify.AsWrittenAgreesIff` |
| Classify.Truthy | scraping.py:45 | definition of the truthiness of a string, which is the truthiness of the constant `"presencial"` in `work_form` and of the email in `if email`: it is truthy exactly when it is non-empty |
| Classify.WorkType | scraping.py:52-58 | definition of `work_type`: "clt" is tested first, then "pj", and "ni" comes out when neither occurs; its partner is `Classify.WorkTypePriority` |
| Classify.SignalsIffMentions | scraping_cs.cs:84-92 | the two `Contains` tests of a branch hold exactly when one of that form's keywords occurs |
| Classify.WorkFormPriority | scraping_refactor_multiprocessing.py:96-103 | the result is the first form, in the order remote, local, hybrid, whose keywords occur; None exactly when none of the six keywords occurs |
| Classify.AsWrittenNeverHybridOrNone | scraping.py:42-50 | the first script always gives a form, never hybrid: "remote" exactly when a remote keyword occurs, "local" otherwise |
| Classify.AsWrittenAgreesIff | scraping.py:42-50 | the first script agrees with the corrected classifier exactly when a remote or a local keyword occurs |
| Classify.HybridPostMisclassified | scraping.py:45 | "vaga hibrido" gives "local" as written and "hybrid" corrected |
| Classify.EmptyPostMisclassified | scraping.py:45-50 | an empty body gives "local" as written and None corrected |
| Classify.WorkTypePriority | scraping_cs.cs:102-116 | "clt" exactly when "clt" occurs; "pj" exactly when "pj" occurs without "clt"; "ni" exactly when neither occurs |
| IssueNumber.DecimalValue | scraping.py:16 | definition of `int()` of a digit string: the digits are read most significant first, and leading zeros are allowed; its partner is `IssueNumber.DecimalRoundTrip` |
| IssueNumber.DecimalString | scraping.py:17 | `str(i)` is a non-empty digit string with no leading zero |
| IssueNumber.DecimalRoundTrip | scraping.py:16-17 | `int(str(n)) == n` |
| IssueNumber.FirstDigitRun | scraping_refactor.py:15 | the first maximal run of digits; none exactly when the id has no digit |
| IssueNumber.IssueCountOrZero | scraping_refactor.py:15-17 | the value of the first digit run, 0 when the id has no digit |
| IssueNumber.IssueCountStrict | scraping.py:12-13 | an error exactly when the id has no digit; otherwise the same count as the refactored scripts |
| IssueNumber.IssueIdRoundTrip | scraping_refactor_multiprocessing.py:35-38 | the row id `issue_<n>` gives back n, in both Python parses |
| IssueNumber.TagAt | scraping_cs.cs:37-38 | an attempt at i succeeds exactly when the row tag, with its digits, starts at i |
| IssueNumber.ParseInt32 | scraping_cs.cs:42 | definition, a case split of its body: `int.Parse` of digits is their value when it fits an `int`, and an overflow error otherwise |
| IssueNumber.IssueCountCs | scraping_cs.cs:37-42 | a count lies in 0..`int.MaxValue`; the only error is an overflow |
| IssueNumber.TagSearchSpec | scraping_cs.cs:38 | the tag search finds the leftmost tag, and finds none exactly when the page has none |
| IssueNumber.IssueCountCsNoTag | scraping_cs.cs:42 | a page without the row tag gives 0 |
| IssueNumber.IssueCountCsTag | scraping_cs.cs:42 | with a leftmost tag, the count is its digits read by `int.Parse` |
| IssueNumber.TagRoundTrip | scraping_cs.cs:37-42 | a page that begins with the tag for n (n fits an `int`) gives n, whatever follows |
| Records.Extract | scraping_refactor.py:24-29 | definition of the fields of an issue: the email is `regex_email` of the body as it is; the work form, the contract type and the URL are computed from the lower-cased body; its partner is `Batch.ExtractEmail` |
| Records.ExtractAsWritten | scraping.py:22-27 | definition: the same fields, with the first script's `work_form` |
| Records.EmailField | scraping_refactor.py:32 | a found email is non-empty, so truthy, and holds no comma |
| Records.UrlField | scraping_refactor_multiprocessing.py:56 | the stored URL starts with a scheme and has no white space and no upper-case letter |
| Records.Show | scraping_cs.cs:151 | definition, a case split of its body: a present value prints as itself; an absent one prints as `None` in the Python programs and as empty text in C# |
| Records.Fields | scraping_refactor_multiprocessing.py:153 | definition: the six printed fields, in the order author, title, email, work form, contract type, URL, each optional one through `Show`; its partner is `Records.LineRoundTrip` |
| Records.Line | scraping.py:82 | definition: the line a program prints for a record, its fields joined by commas; `Records.LineRoundTrip` proves that it splits back into those fields |
| Records.SplitJoin | scraping_refactor_multiprocessing.py:153 | comma-free fields joined by commas split back into the same fields |
| Records.LineRoundTrip | scraping_refactor_multiprocessing.py:153 | with comma-free values, a record line splits into exactly its six fields in column order |
| Records.Header | scraping_refactor_multiprocessing.py:168 | the header line splits into the six column names |
| Records.AbsentValues | scraping_cs.cs:151 | absent email, form and URL print as `None` in Python and as empty text in C# |
| Batch.RecordsAt | scraping_refactor.py:36-37 | the k-th record is the extraction of issue k's page |
| Batch.LinesAt | scraping_refactor.py:31 | the k-th line is the line of the k-th record |
| Batch.LineOfIssue | scraping_refactor.py:31-37 | once issues 1..m have appended their lines to a file, the line of issue k comes k-1 places after the old end of the file |
| Batch.KeptIffFound | scraping_refactor.py:32 | every program keeps an email exactly when `regex_email` found one |
| Batch.KeptSet | scraping_refactor.py:32 | definition, a case split of its body: a record adds its email exactly when the program keeps it |
| Batch.EmailsMembers | scraping_cs.cs:69-72 | an email is collected exactly when some record has it and it is kept |
| Batch.RecordEmails | scraping_refactor.py:32-37 | when an email is kept exactly when present, the collected emails are the emails of issues 1..n |
| Batch.ExtractEmail | scraping_refactor.py:24-26 | a record's email is `regex_email` of the original body, and each program keeps it exactly when present |
| Batch.EmailLogSet | scraping_refactor_multiprocessing.py:148-150 | the appended email lines hold exactly the collected emails |
| Batch.EmailOptionsMembers | scraping.py:31 | the first script's set holds exactly the records' email values, `None` included |
| Batch.EmailOptionsSome | scraping.py:72-75 | dropping `None` from that set leaves the collected emails |
| Batch.LinesStep | scraping_refactor.py:31 | appending issue m+1's line to the lines of 1..m gives the lines of 1..m+1 |
| Batch.EmailsStep | scraping_refactor.py:32 | adding issue m+1's kept email to the set of 1..m gives the set of 1..m+1 |
| Batch.EmailOptionsStep | scraping.py:31 | adding issue m+1's email value to the set of 1..m gives the set of 1..m+1 |
| Batch.EmailLogStep | scraping_refactor_multiprocessing.py:148-150 | appending issue m+1's kept email to the log of 1..m gives the log of 1..m+1 |
| Storage.DataDir.AppendData | scraping.py:81-82 | one line is added at the end of `data.csv`; `emails.txt` is unchanged |
| Storage.DataDir.AppendEmail | scraping_refactor.py:74 | one line is added at the end of `emails.txt`; `data.csv` is unchanged |
| Storage.DataDir.TruncateEmails | scraping_refactor.py:71 | opening `emails.txt` for writing empties it |
| Storage.DataDir.ResetData | scraping_refactor_multiprocessing.py:167-168 | `data.csv` becomes the one line written |
| Scraping.SaveData | scraping.py:77-82 | one record line, `None` printed as `None`, is appended to `data.csv` |
| Scraping.SaveEmails | scraping.py:67-75 | `emails.txt` holds every non-`None` member of the set, each once, and nothing else |
| Scraping.ProcessedStep | scraping.py:16-31 | one iteration takes the state after issues 1..m to the state after 1..m+1 |
| Scraping.IssueLoop | scraping.py:16-31 | issues are processed in increasing order; the loop stops early only at a failed fetch, with the lines and the set of the earlier issues |
| Scraping.RunLines | scraping.py:16-30 | a passing run appends exactly n lines, the k-th for issue k |
| Scraping.RunEmails | scraping.py:31-32 | after a passing run, `emails.txt` holds exactly the emails found in the bodies of issues 1..n |
| Scraping.IssuesData | scraping.py:15-32 | a passing run leaves n lines and the distinct emails; a failed fetch of issue k leaves the lines of 1..k-1 and `emails.txt` untouched |
| Scraping.GetIssuesData | scraping.py:6-32 | an id without digits fails before anything is written; otherwise the run over the parsed count follows, with the first script's `work_form` |
| ScrapingRefactor.ProcessedStep | scraping_refactor.py:36-37 | one iteration takes the state after issues 1..m to the state after 1..m+1 |
| ScrapingRefactor.NoIssuesStillSaves | scraping_refactor.py:34-38 | with count 0 nothing is appended and `emails.txt` is still rewritten from the set |
| ScrapingRefactor.RunLines | scraping_refactor.py:36-37 | a passing run appends exactly n lines, the k-th for issue k |
| ScrapingRefactor.RunEmails | scraping_refactor.py:32-38 | from an empty set, a passing run leaves in `emails.txt` exactly the emails found in issues 1..n |
| ScrapingRefactor.DataProcessor.constructor | scraping_refactor.py:7-10 | the email set starts empty |
| ScrapingRefactor.DataProcessor.SaveData | scraping_refactor.py:76-82 | one record line is appended to `data.csv` |
| ScrapingRefactor.DataProcessor.ProcessIssue | scraping_refactor.py:19-32 | the line of the page's record is saved, and its email joins the set only when truthy, so the set never holds `None` or "" |
| ScrapingRefactor.DataProcessor.IssueLoop | scraping_refactor.py:36-37 | `process_issue` for each issue in increasing order; it stops early only at a failed fetch |
| ScrapingRefactor.DataProcessor.SaveEmails | scraping_refactor.py:66-74 | `emails.txt` holds every member of the set, each once, and nothing else |
| ScrapingRefactor.DataProcessor.IssuesData | scraping_refactor.py:36-38 | a passing run leaves n lines and the set written once each; a failed fetch leaves `emails.txt` untouched |
| ScrapingRefactor.DataProcessor.ProcessIssuesData | scraping_refactor.py:34-38 | the same run for the count `get_issue_number` reads, 0 when the id has no digit |
| ScrapingMultiprocessing.ProcessedStep | scraping_refactor_multiprocessing.py:148-153 | one issue takes the state after issues 1..m to the state after 1..m+1 |
| ScrapingMultiprocessing.MainLines | scraping_refactor_multiprocessing.py:191-193 | after a passing `main`, `data.csv` is the header and then n lines, the k-th for issue k |
| ScrapingMultiprocessing.MainEmails | scraping_refactor_multiprocessing.py:191-193 | after a passing `main`, `emails.txt` holds exactly the emails found in issues 1..n, each once |
| ScrapingMultiprocessing.DataProcessor.SaveData | scraping_refactor_multiprocessing.py:135-153 | a truthy email is appended to `emails.txt`, then the record line, `None` printed as `None`, to `data.csv` |
| ScrapingMultiprocessing.DataProcessor.ProcessIssue | scraping_refactor_multiprocessing.py:40-58 | `save_data` of the page's record: its truthy email is appended to `emails.txt` and its line to `data.csv` |
| ScrapingMultiprocessing.DataProcessor.IssueLoop | scraping_refactor_multiprocessing.py:69-71 | `process_issue` for each issue in increasing order; it stops early only at a failed fetch |
| ScrapingMultiprocessing.DataProcessor.IssuesData | scraping_refactor_multiprocessing.py:60-71 | a passing run appends n lines and the truthy emails in issue order; a failed fetch of k leaves those of 1..k-1 |
| ScrapingMultiprocessing.DataProcessor.ProcessIssuesData | scraping_refactor_multiprocessing.py:60-71 | the same run for the count `get_issue_number` reads |
| ScrapingMultiprocessing.DataProcessor.CleanLocalData | scraping_refactor_multiprocessing.py:166-171 | `data.csv` is exactly the header line and `emails.txt` is empty |
| ScrapingMultiprocessing.DataProcessor.CleanEmailDuplicates | scraping_refactor_multiprocessing.py:173-180 | `emails.txt` keeps the same set of lines, each exactly once; `data.csv` is unchanged |
| ScrapingMultiprocessing.DataProcessor.Run | scraping_refactor_multiprocessing.py:183-195 | `main` leaves the header and the processed lines; when no fetch fails, each collected email once |
| ScrapingCs.ProcessedStep | scraping_cs.cs:25-28 | one iteration takes the state after issues 1..m to the state after 1..m+1 |
| ScrapingCs.RunLines | scraping_cs.cs:22-30 | a passing run appends exactly n lines, the k-th for issue k, with null printed as empty text |
| ScrapingCs.RunEmails | scraping_cs.cs:22-30 | from an empty set, a passing run leaves in `emails.txt` exactly the emails found in issues 1..n |
| ScrapingCs.DataProcessor.constructor | scraping_cs.cs:15-20 | the email set starts empty |
| ScrapingCs.DataProcessor.SaveData | scraping_cs.cs:143-153 | one record line, null printed as empty text, is appended to `data.csv` |
| ScrapingCs.DataProcessor.ProcessIssue | scraping_cs.cs:45-73 | the line of the page's record is saved, and its email joins the set only when non-null |
| ScrapingCs.DataProcessor.IssueLoop | scraping_cs.cs:25-28 | `ProcessIssue` for each issue in increasing order; it stops early only at a failed fetch |
| ScrapingCs.DataProcessor.SaveEmails | scraping_cs.cs:125-141 | `emails.txt` is overwritten with every member of the set, each once, and nothing else |
| ScrapingCs.DataProcessor.IssuesData | scraping_cs.cs:22-30 | a passing run leaves n lines and the set written once each; a failed fetch leaves `emails.txt` untouched |
| ScrapingCs.DataProcessor.ProcessIssuesData | scraping_cs.cs:22-30 | a count that overflows `int` fails before anything is written; otherwise the run over the parsed count follows |

## Left out

- HTTP requests, response disposal and the User-Agent header. Pages come from an input
  map, and a number missing from the map stands for a request that raises an exception.
- DOM selection (`r.html.find`) and the three C# HTML regexes for author, title and body
  (scraping_cs.cs:51-57). Author, title and body are inputs; for the C# program they stand
  for what those regexes capture, empty text included.
- joblib's `Parallel` (scraping_refactor_multiprocessing.py:71). The jobs are modelled as
  one worker taking issues in increasing order. With real workers the lines of `data.csv`
  and `emails.txt` may come in any order, and a failed job need not stop the others first.
- File paths, encodings and file handles. Each file is a sequence of lines; the trailing
  newline of each written line is implied.
- Timing and console output in `main`, including the `print("")` in `clean_local_data`,
  which goes to the console.
- Unicode: lower-casing is ASCII only, and `\d` is ASCII digits only. `\w` is ASCII letters,
  digits, '_' and the Latin-1 letters. Both engines also count the letters and digits
  above U+00FF as `\w`, and C# also counts combining marks and connector punctuation. Python's `\w` also
  matches the Latin-1 digits and fractions ¹ ² ³ ¼ ½ ¾, and C#'s does not. So for
  "see http://ab.cd² now" Python's `regex_url` gives "http://ab.cd²", while the model and
  C# give "http://ab.cd". `\s` is Python's set; C#'s `\s` also lacks U+001C..U+001F.
- Set iteration order when emails are written. Only content and uniqueness are stated.
- Commas and line breaks inside author, title or URL are written unquoted and break the
  CSV. The round trip `Records.LineRoundTrip` assumes they are absent.
- The C# loop counter is an `int`. With a count of `int.MaxValue` the `i++` wraps and the
  loop would not end; the model's counter is unbounded, since reaching that count needs
  that many pages.
- Each loop is proved for any per-issue extraction function, and each program's entry
  method instantiates it with that program's own extraction.

## Findings

| source | as written | input that shows it | evidently intended | confidence | as-written member | corrected member |
|---|---|---|---|---|---|---|
| scraping.py:45 | `elif "presencial" or "local" in text:` is always true, because the non-empty constant is truthy | the body "vaga hibrido" is stored as "local" (an empty body too, instead of `None`) | `"presencial" in text or "local" in text`, as in the other three programs | high (not executed) | Classify.WorkFormAsWritten, shown by Classify.HybridPostMisclassified | Classify.WorkForm, proved by Classify.WorkFormPriority |
