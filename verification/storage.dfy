/** The two output files under `data/`, held as their lists of lines. */
module Storage {

  /** No line appears twice. */
  predicate NoDup(lines: seq<string>) {
    forall x, y :: 0 <= x < y < |lines| ==> lines[x] != lines[y]
  }

  /** Appending a line that is not there yet keeps the lines distinct. */
  lemma NoDupAppend(lines: seq<string>, l: string)
    requires NoDup(lines) && l !in lines
    ensures NoDup(lines + [l])
  {
    forall x, y | 0 <= x < y < |lines| + 1 ensures (lines + [l])[x] != (lines + [l])[y] {
      if y == |lines| {
        assert (lines + [l])[x] == lines[x];
      }
    }
  }

  /** `data/data.csv` and `data/emails.txt`. Every line a program prints or writes with a
      trailing newline is one element; the newline itself is not stored. */
  class DataDir {
    var dataCsv: seq<string>
    var emailsTxt: seq<string>

    /** The directory as the run finds it. */
    constructor (csv: seq<string>, emails: seq<string>)
      ensures dataCsv == csv && emailsTxt == emails
    {
      dataCsv := csv;
      emailsTxt := emails;
    }

    /** Opening `data.csv` for appending and printing one line. */
    method AppendData(line: string)
      modifies this
      ensures dataCsv == old(dataCsv) + [line]
      ensures emailsTxt == old(emailsTxt)
    {
      dataCsv := dataCsv + [line];
    }

    /** Printing (or writing with "\n") one line to `emails.txt`. */
    method AppendEmail(line: string)
      modifies this
      ensures emailsTxt == old(emailsTxt) + [line]
      ensures dataCsv == old(dataCsv)
    {
      emailsTxt := emailsTxt + [line];
    }

    /** Opening `emails.txt` with mode "w" (or a non-appending `StreamWriter`): the file is
        emptied. */
    method TruncateEmails()
      modifies this
      ensures emailsTxt == []
      ensures dataCsv == old(dataCsv)
    {
      emailsTxt := [];
    }

    /** Opening `data.csv` with mode "w" and printing one line. */
    method ResetData(line: string)
      modifies this
      ensures dataCsv == [line]
      ensures emailsTxt == old(emailsTxt)
    {
      dataCsv := [line];
    }
  }
}
