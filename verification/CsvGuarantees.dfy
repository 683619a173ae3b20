/** What the CSV reader does with any text (backend/src/csv.ts), encoded by anyone or by no one. */
module CsvGuarantees {
  import opened Sorting
  import opened Csv

  // ---------------------------------------------------------------- line breaks

  /** A text read in two parts: nothing straddles the cut when the second part starts with a line break. */
  lemma {:induction false} RunInParts(a: string, b: string, st: State)
    requires b != "" && b[0] != '"' && (b[0] == '\n' ==> a == "" || a[|a| - 1] != '\r')
    ensures Run(a + b, st) == Run(b, Run(a, st))
    decreases |a|
  {
    if a == "" {
      assert a + b == b;
    } else {
      var text := a + b;
      assert text[0] == a[0];
      if |a| == 1 { assert text[1] == b[0]; } else { assert text[1] == a[1]; }
      assert Width(text, st) == Width(a, st) && Step(text, st) == Step(a, st);
      var w := Width(a, st);
      assert text[w..] == a[w..] + b;
      RunInParts(a[w..], b, Step(a, st));
    }
  }

  lemma {:induction false} BreakEndsRow(break_: string, rest: string, st: State)
    requires break_ in {"\n", "\r", "\r\n"} && !st.inQuotes
    requires break_ == "\r" ==> rest == "" || rest[0] != '\n'
    ensures Run(break_ + rest, st) == Run(rest, State(st.rows + [st.row + [st.cell]], [], "", false))
  {
    var text := break_ + rest;
    assert text[0] == break_[0];
    if break_ == "\r\n" {
      assert text[1] == '\n' && text[2..] == rest;
    } else {
      assert text[1..] == rest;
      if rest != "" { assert text[1] == rest[0]; }
    }
  }

  /**
   * Outside quotes LF, CR and CRLF mean the same: replacing one by another does not change what is
   * read, as long as no CR and LF come together that were apart.
   */
  lemma {:induction false} BreaksAreInterchangeable(a: string, b: string)
    requires Quotes(a) % 2 == 0 && (a == "" || a[|a| - 1] != '\r') && (b == "" || b[0] != '\n')
    ensures Parse(a + ("\n" + b)) == Parse(a + ("\r" + b)) == Parse(a + ("\r\n" + b))
  {
    hide Finish;
    var st := Run(a, START);
    QuoteParity(a, START);
    assert ("\n" + b)[0] == '\n' && ("\r" + b)[0] == '\r' && ("\r\n" + b)[0] == '\r';
    RunInParts(a, "\n" + b, START);
    RunInParts(a, "\r" + b, START);
    RunInParts(a, "\r\n" + b, START);
    BreakEndsRow("\n", b, st);
    BreakEndsRow("\r", b, st);
    BreakEndsRow("\r\n", b, st);
  }

  // ---------------------------------------------------------------- how many rows and cells

  /** The line breaks outside quotes; a quote opens or closes, and CRLF is one break. */
  function Breaks(text: string, quoted: bool): nat {
    if text == "" then 0
    else if text[0] == '"' then Breaks(text[1..], !quoted)
    else if quoted || (text[0] != '\n' && text[0] != '\r') then Breaks(text[1..], quoted)
    else if text[0] == '\r' && |text| > 1 && text[1] == '\n' then 1 + Breaks(text[2..], quoted)
    else 1 + Breaks(text[1..], quoted)
  }

  /** The commas outside quotes. */
  function Commas(text: string, quoted: bool): nat {
    if text == "" then 0
    else if text[0] == '"' then Commas(text[1..], !quoted)
    else (if text[0] == ',' && !quoted then 1 else 0) + Commas(text[1..], quoted)
  }

  function CellCount(rows: seq<seq<string>>): nat {
    if rows == [] then 0 else CellCount(rows[..|rows| - 1]) + |rows[|rows| - 1]|
  }

  lemma {:induction false} StructureOfStep(text: string, st: State)
    requires text != ""
    ensures
      var rest, next := text[Width(text, st)..], Step(text, st);
      && |next.rows| + Breaks(rest, next.inQuotes) == |st.rows| + Breaks(text, st.inQuotes)
      && CellCount(next.rows) + |next.row| + Commas(rest, next.inQuotes) + Breaks(rest, next.inQuotes)
         == CellCount(st.rows) + |st.row| + Commas(text, st.inQuotes) + Breaks(text, st.inQuotes)
  {
    var next := Step(text, st);
    if Width(text, st) == 2 { assert text[1..][1..] == text[2..] && text[1..][0] == text[1]; }
    if |next.rows| > |st.rows| { assert next.rows[..|next.rows| - 1] == st.rows; }
  }

  lemma {:induction false} StructureOfRun(text: string, st: State)
    ensures |Run(text, st).rows| == |st.rows| + Breaks(text, st.inQuotes)
    ensures CellCount(Run(text, st).rows) + |Run(text, st).row|
         == CellCount(st.rows) + |st.row| + Commas(text, st.inQuotes) + Breaks(text, st.inQuotes)
    decreases |text|
  {
    if text != "" {
      hide Step, CellCount;
      StructureOfStep(text, st);
      StructureOfRun(text[Width(text, st)..], Step(text, st));
    }
  }

  /**
   * For every text: one row for each line break outside quotes, and one for a last line that is not
   * empty; one cell for each row, and one more for each comma outside quotes.
   */
  lemma {:induction false} RowsAndCells(content: string)
    ensures
      var rows, breaks, commas := Parse(content).rows, Breaks(content, false), Commas(content, false);
      && breaks <= |rows| <= breaks + 1
      && (|rows| == breaks ==> CellCount(rows) == commas + breaks)
      && (|rows| == breaks + 1 ==> CellCount(rows) == commas + breaks + 1)
  {
    var st := Run(content, START);
    StructureOfRun(content, START);
    if st.cell != "" || st.row != [] {
      assert (st.rows + [st.row + [st.cell]])[..|st.rows|] == st.rows;
    }
  }

  // ---------------------------------------------------------------- records

  /** Some cell of the row holds more than white space. */
  function HasText(trim: string -> string): seq<string> -> bool {
    (row: seq<string>) => exists i | 0 <= i < |row| :: |trim(row[i])| > 0
  }

  lemma {:induction false} BlankMeans(trim: string -> string, row: seq<string>)
    ensures HasText(trim)(row) <==> !Blank(trim, row)
  {
  }

  lemma {:induction false} CountFromFront(rows: seq<seq<string>>, p: seq<string> -> bool)
    requires rows != []
    ensures CountIf(rows, p) == (if p(rows[0]) then 1 else 0) + CountIf(rows[1..], p)
  {
    assert rows == [rows[0]] + rows[1..];
    CountConcat([rows[0]], rows[1..], p);
    assert [rows[0]][..0] == [];
  }

  lemma {:induction false} KeptRows(trim: string -> string, rows: seq<seq<string>>)
    ensures |NotBlank(trim, rows)| == CountIf(rows, HasText(trim))
  {
    hide Blank;
    if rows != [] {
      KeptRows(trim, rows[1..]);
      CountFromFront(rows, HasText(trim));
      BlankMeans(trim, rows[0]);
    }
  }

  lemma {:induction false} CountOfPrefix(rows: seq<seq<string>>, i: nat, p: seq<string> -> bool)
    requires i < |rows| && p(rows[i])
    ensures CountIf(rows[..i], p) < CountIf(rows, p)
  {
    assert rows == rows[..i + 1] + rows[i + 1..];
    CountConcat(rows[..i + 1], rows[i + 1..], p);
    assert rows[..i + 1][..i] == rows[..i];
  }

  lemma {:induction false} KeptRowAt(trim: string -> string, rows: seq<seq<string>>, i: nat)
    requires i < |rows| && HasText(trim)(rows[i])
    ensures CountIf(rows[..i], HasText(trim)) < |NotBlank(trim, rows)|
    ensures NotBlank(trim, rows)[CountIf(rows[..i], HasText(trim))] == rows[i]
  {
    hide Blank;
    KeptRows(trim, rows);
    CountOfPrefix(rows, i, HasText(trim));
    BlankMeans(trim, rows[0]);
    if i == 0 {
      assert rows[..0] == [];
    } else {
      KeptRowAt(trim, rows[1..], i - 1);
      CountFromFront(rows[..i], HasText(trim));
      assert rows[..i][1..] == rows[1..][..i - 1];
    }
  }

  lemma {:induction false} RecordAt(trim: string -> string, headers: seq<string>, rows: seq<seq<string>>, k: nat)
    ensures |RecordsOf(trim, headers, rows)| == |rows|
    ensures k < |rows| ==> RecordsOf(trim, headers, rows)[k] == Record(trim, headers, rows[k], |headers|)
  {
    if rows != [] { RecordAt(trim, headers, rows[1..], if k > 0 then k - 1 else 0); }
  }

  /** Column `j` is the last one with its header. */
  predicate LastOfName(headers: seq<string>, j: nat, n: nat)
    requires j < n <= |headers|
  {
    forall k | j < k < n :: headers[k] != headers[j]
  }

  /** A record has the headers for keys; under each stands the trimmed cell of its last column, or nothing. */
  lemma {:induction false} RecordMeans(trim: string -> string, headers: seq<string>, row: seq<string>, n: nat, j: nat)
    requires j < n <= |headers| && LastOfName(headers, j, n)
    ensures headers[j] in Record(trim, headers, row, n)
    ensures Record(trim, headers, row, n)[headers[j]] == if j < |row| then trim(row[j]) else ""
    ensures forall key :: key in Record(trim, headers, row, n) ==> key in headers[..n]
  {
    RecordKeys(trim, headers, row, n);
    if j < n - 1 {
      assert headers[n - 1] != headers[j];
      RecordMeans(trim, headers, row, n - 1, j);
    }
  }

  lemma {:induction false} RecordKeys(trim: string -> string, headers: seq<string>, row: seq<string>, n: nat)
    requires n <= |headers|
    ensures forall key :: key in Record(trim, headers, row, n) <==> key in headers[..n]
  {
    if n > 0 {
      RecordKeys(trim, headers, row, n - 1);
      assert headers[..n] == headers[..n - 1] + [headers[n - 1]];
    }
  }

  lemma {:induction false} TrimmedAt(trim: string -> string, headers: seq<string>, j: nat)
    ensures |Trimmed(trim, headers)| == |headers|
    ensures j < |headers| ==> Trimmed(trim, headers)[j] == trim(headers[j])
  {
    if headers != [] { TrimmedAt(trim, headers[1..], if j > 0 then j - 1 else 0); }
  }

  /** The records of any text: one for each row after the first that holds any text, in order. */
  lemma {:induction false} RecordsMean(trim: string -> string, content: string)
    ensures Parse(content).rows == [] ==> ParseCsv(trim, content) == []
    ensures Parse(content).rows != [] ==> |ParseCsv(trim, content)| == CountIf(Parse(content).rows[1..], HasText(trim))
  {
    hide Parse;
    var rows := Parse(content).rows;
    if rows != [] {
      RecordAt(trim, Trimmed(trim, rows[0]), NotBlank(trim, rows[1..]), 0);
      KeptRows(trim, rows[1..]);
    }
  }

  /** Cell `j` of the text row `i` in its record, under the trimmed header of its column. */
  lemma {:induction false} CellOfRecord(trim: string -> string, content: string, i: nat, j: nat)
    requires
      var rows := Parse(content).rows;
      1 <= i < |rows| && HasText(trim)(rows[i]) && j < |rows[0]|
      && forall k | j < k < |rows[0]| :: trim(rows[0][k]) != trim(rows[0][j])
    ensures
      var rows := Parse(content).rows;
      var number := CountIf(rows[1..i], HasText(trim));
      && number < |ParseCsv(trim, content)| && trim(rows[0][j]) in ParseCsv(trim, content)[number]
      && ParseCsv(trim, content)[number][trim(rows[0][j])] == if j < |rows[i]| then trim(rows[i][j]) else ""
  {
    hide Parse;
    var rows := Parse(content).rows;
    var headers, kept := Trimmed(trim, rows[0]), NotBlank(trim, rows[1..]);
    KeptRowAt(trim, rows[1..], i - 1);
    assert rows[1..][..i - 1] == rows[1..i];
    var number := CountIf(rows[1..i], HasText(trim));
    RecordAt(trim, headers, kept, number);
    TrimmedAt(trim, rows[0], j);
    forall k | j < k < |headers| ensures headers[k] != headers[j] { TrimmedAt(trim, rows[0], k); }
    RecordMeans(trim, headers, rows[i], |headers|, j);
  }
}
