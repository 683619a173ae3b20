/** The CSV reader (backend/src/csv.ts), for the format of section 2 of RFC 4180. */
module Csv {

  datatype State = State(rows: seq<seq<string>>, row: seq<string>, cell: string, inQuotes: bool)

  const START := State([], [], "", false)

  datatype Parsed = Parsed(rows: seq<seq<string>>, unterminatedQuote: bool)

  /** How many characters the reader consumes at the start of `text`. */
  function Width(text: string, st: State): nat
    requires text != ""
  {
    if text[0] == '"' && st.inQuotes && |text| > 1 && text[1] == '"' then 2
    else if text[0] == '\r' && !st.inQuotes && |text| > 1 && text[1] == '\n' then 2
    else 1
  }

  function Step(text: string, st: State): State
    requires text != ""
  {
    var c := text[0];
    if c == '"' && st.inQuotes && |text| > 1 && text[1] == '"' then st.(cell := st.cell + "\"")
    else if c == '"' then st.(inQuotes := !st.inQuotes)
    else if c == ',' && !st.inQuotes then st.(row := st.row + [st.cell], cell := "")
    else if (c == '\n' || c == '\r') && !st.inQuotes then State(st.rows + [st.row + [st.cell]], [], "", false)
    else st.(cell := st.cell + [c])
  }

  /** The state after reading all of `text`. */
  function Run(text: string, st: State): State {
    if text == "" then st else Run(text[Width(text, st)..], Step(text, st))
  }

  /** A last row without a line break counts when anything was read of it. */
  function Finish(st: State): Parsed {
    Parsed(if st.cell != "" || st.row != [] then st.rows + [st.row + [st.cell]] else st.rows, st.inQuotes)
  }

  function Parse(content: string): Parsed { Finish(Run(content, START)) }

  method ParseCsvRowsDetailed(content: string) returns (parsed: Parsed)
    ensures parsed == Parse(content)
  {
    var rows: seq<seq<string>>, currentRow: seq<string>, currentCell, inQuotes := [], [], "", false;
    var index := 0;
    while index < |content|
      invariant 0 <= index <= |content|
      invariant Run(content, START) == Run(content[index..], State(rows, currentRow, currentCell, inQuotes))
    {
      var c := content[index];
      var more := index + 1 < |content|;
      ghost var st, rest := State(rows, currentRow, currentCell, inQuotes), content[index..];
      assert rest[0] == c && (more ==> rest[1] == content[index + 1]);
      assert rest[Width(rest, st)..] == content[index + Width(rest, st)..];
      if c == '"' && inQuotes && more && content[index + 1] == '"' {
        currentCell := currentCell + "\"";
        index := index + 1;
      } else if c == '"' {
        inQuotes := !inQuotes;
      } else if c == ',' && !inQuotes {
        currentRow := currentRow + [currentCell];
        currentCell := "";
      } else if (c == '\n' || c == '\r') && !inQuotes {
        if c == '\r' && more && content[index + 1] == '\n' { index := index + 1; }
        rows := rows + [currentRow + [currentCell]];
        currentRow := [];
        currentCell := "";
      } else {
        currentCell := currentCell + [c];
      }
      index := index + 1;
    }
    if currentCell != "" || |currentRow| > 0 {
      currentRow := currentRow + [currentCell];
      rows := rows + [currentRow];
    }
    parsed := Parsed(rows, inQuotes);
  }

  // ---------------------------------------------------------------- unterminated quotes

  function Quotes(text: string): nat {
    if text == "" then 0 else (if text[0] == '"' then 1 else 0) + Quotes(text[1..])
  }

  lemma {:induction false} QuoteParity(text: string, st: State)
    ensures Run(text, st).inQuotes == (st.inQuotes != (Quotes(text) % 2 == 1))
    decreases |text|
  {
    if text != "" {
      QuoteParity(text[Width(text, st)..], Step(text, st));
      if Width(text, st) == 2 { assert text[1..][1..] == text[2..]; }
    }
  }

  /** For every input, quotes are reported open exactly when their number is odd. */
  lemma {:induction false} UnterminatedIffOdd(content: string)
    ensures Parse(content).unterminatedQuote <==> Quotes(content) % 2 == 1
  {
    QuoteParity(content, START);
  }

  // ---------------------------------------------------------------- encoding

  datatype Cell = Cell(text: string, quoted: bool)

  datatype Break = LF | CRLF

  datatype Row = Row(cells: seq<Cell>, end: Break)

  /** Text that may be written without quotes. */
  predicate Bare(text: string) {
    forall i | 0 <= i < |text| :: text[i] != '"' && text[i] != ',' && text[i] != '\n' && text[i] != '\r'
  }

  predicate Encodable(cells: seq<Cell>) {
    cells != [] && forall i | 0 <= i < |cells| :: cells[i].quoted || Bare(cells[i].text)
  }

  predicate AllEncodable(rows: seq<Row>) { forall i | 0 <= i < |rows| :: Encodable(rows[i].cells) }

  /** Quotes doubled. */
  function Doubled(text: string): string {
    if text == "" then "" else (if text[0] == '"' then "\"\"" else [text[0]]) + Doubled(text[1..])
  }

  function EncodeCell(cell: Cell): string {
    if cell.quoted then "\"" + (Doubled(cell.text) + "\"") else cell.text
  }

  function EncodeCells(cells: seq<Cell>): string
    requires cells != []
  {
    if |cells| == 1 then EncodeCell(cells[0]) else EncodeCell(cells[0]) + ("," + EncodeCells(cells[1..]))
  }

  function EncodeBreak(end: Break): string { if end == LF then "\n" else "\r\n" }

  function Encode(rows: seq<Row>): string
    requires AllEncodable(rows)
  {
    if rows == [] then "" else EncodeCells(rows[0].cells) + (EncodeBreak(rows[0].end) + Encode(rows[1..]))
  }

  function Texts(cells: seq<Cell>): seq<string> {
    if cells == [] then [] else [cells[0].text] + Texts(cells[1..])
  }

  function Table(rows: seq<Row>): seq<seq<string>> {
    if rows == [] then [] else [Texts(rows[0].cells)] + Table(rows[1..])
  }

  // ---------------------------------------------------------------- round trip

  lemma {:induction false} RunOne(c: char, rest: string, st: State)
    requires Width([c] + rest, st) == 1
    ensures Run([c] + rest, st) == Run(rest, Step([c] + rest, st))
  {
    assert ([c] + rest)[1..] == rest;
  }

  lemma {:induction false} RunTwo(c: char, d: char, rest: string, st: State)
    requires Width([c, d] + rest, st) == 2
    ensures Run([c, d] + rest, st) == Run(rest, Step([c, d] + rest, st))
  {
    assert ([c, d] + rest)[2..] == rest;
  }

  predicate NoQuoteFirst(text: string) { text == "" || text[0] != '"' }

  /** One character of a quoted cell, doubled if it is a quote. */
  lemma {:induction false} RunDoubled(c: char, tail: string, st: State)
    requires st.inQuotes
    ensures Run((if c == '"' then ['"', '"'] else [c]) + tail, st) == Run(tail, st.(cell := st.cell + [c]))
  {
    hide Run;
    if c == '"' { RunTwo('"', '"', tail, st); } else { RunOne(c, tail, st); }
  }

  lemma {:induction false} DoubledCons(text: string, rest: string)
    requires text != ""
    ensures Doubled(text) + rest
         == (if text[0] == '"' then ['"', '"'] else [text[0]]) + (Doubled(text[1..]) + rest)
  {
  }

  lemma {:induction false} RunClosing(rest: string, st: State)
    requires st.inQuotes && NoQuoteFirst(rest)
    ensures Run("\"" + rest, st) == Run(rest, st.(inQuotes := false))
  {
    hide Run;
    RunOne('"', rest, st);
  }

  lemma {:induction false} AppendRest(before: string, text: string)
    requires text != ""
    ensures (before + [text[0]]) + text[1..] == before + text
  {
  }

  lemma {:induction false} NothingDoubled(closing: string, before: string)
    ensures Doubled("") + closing == closing && before + "" == before
  {
  }

  /** The body of a quoted cell and its closing quote. */
  lemma {:induction false} RunQuoted(text: string, rest: string, st: State)
    requires st.inQuotes && NoQuoteFirst(rest)
    ensures Run(Doubled(text) + ("\"" + rest), st) == Run(rest, st.(cell := st.cell + text, inQuotes := false))
  {
    hide *;
    var closing := "\"" + rest;
    if text == "" {
      NothingDoubled(closing, st.cell);
      RunClosing(rest, st);
    } else {
      DoubledCons(text, closing);
      RunDoubled(text[0], Doubled(text[1..]) + closing, st);
      RunQuoted(text[1..], rest, st.(cell := st.cell + [text[0]]));
      AppendRest(st.cell, text);
    }
  }

  lemma {:induction false} RunBare(text: string, rest: string, st: State)
    requires !st.inQuotes && Bare(text)
    ensures Run(text + rest, st) == Run(rest, st.(cell := st.cell + text))
  {
    if text == "" {
      assert text + rest == rest && st.cell + text == st.cell;
    } else {
      assert text + rest == [text[0]] + (text[1..] + rest);
      RunOne(text[0], text[1..] + rest, st);
      RunBare(text[1..], rest, st.(cell := st.cell + [text[0]]));
      assert (st.cell + [text[0]]) + text[1..] == st.cell + text;
    }
  }

  lemma {:induction false} RunCell(cell: Cell, rest: string, st: State)
    requires !st.inQuotes && st.cell == "" && (cell.quoted || Bare(cell.text)) && NoQuoteFirst(rest)
    ensures Run(EncodeCell(cell) + rest, st) == Run(rest, st.(cell := cell.text))
  {
    if cell.quoted {
      var body := Doubled(cell.text) + ("\"" + rest);
      assert EncodeCell(cell) + rest == ['"'] + body;
      RunOne('"', body, st);
      RunQuoted(cell.text, rest, st.(inQuotes := true));
      assert "" + cell.text == cell.text;
    } else {
      RunBare(cell.text, rest, st);
      assert "" + cell.text == cell.text;
    }
  }

  /** A cell and the comma after it. */
  lemma {:induction false} RunCellComma(cell: Cell, rest: string, st: State)
    requires !st.inQuotes && st.cell == "" && (cell.quoted || Bare(cell.text))
    ensures Run(EncodeCell(cell) + ([','] + rest), st) == Run(rest, st.(row := st.row + [cell.text]))
  {
    hide Run, EncodeCell;
    RunCell(cell, [','] + rest, st);
    RunOne(',', rest, st.(cell := cell.text));
  }

  lemma {:induction false} TextsCons(cells: seq<Cell>, before: seq<string>)
    requires |cells| > 1 && |Texts(cells[1..])| == |cells| - 1
    ensures |Texts(cells)| == |cells| && Texts(cells)[|cells| - 1] == Texts(cells[1..])[|cells| - 2]
    ensures (before + [cells[0].text]) + Texts(cells[1..])[..|cells| - 2] == before + Texts(cells)[..|cells| - 1]
  {
  }

  /** A line: everything but its last cell is in the row, the last cell is still open. */
  lemma {:induction false} RunCells(cells: seq<Cell>, rest: string, st: State)
    requires !st.inQuotes && st.cell == "" && Encodable(cells) && NoQuoteFirst(rest)
    ensures |Texts(cells)| == |cells|
    ensures Run(EncodeCells(cells) + rest, st)
         == Run(rest, st.(row := st.row + Texts(cells)[..|cells| - 1], cell := Texts(cells)[|cells| - 1]))
  {
    hide Run, EncodeCell;
    if |cells| == 1 {
      RunCell(cells[0], rest, st);
      assert Texts(cells) == [cells[0].text];
      assert st.row + Texts(cells)[..0] == st.row;
    } else {
      var tail := EncodeCells(cells[1..]) + rest;
      assert EncodeCells(cells) + rest == EncodeCell(cells[0]) + ([','] + tail);
      RunCellComma(cells[0], tail, st);
      RunCells(cells[1..], rest, st.(row := st.row + [cells[0].text]));
      TextsCons(cells, st.row);
    }
  }

  lemma {:induction false} RunBreak(end: Break, rest: string, st: State)
    requires !st.inQuotes
    ensures Run(EncodeBreak(end) + rest, st) == Run(rest, State(st.rows + [st.row + [st.cell]], [], "", false))
  {
    if end == LF { RunOne('\n', rest, st); } else { RunTwo('\r', '\n', rest, st); }
  }

  lemma {:induction false} BreakIsNoQuote(end: Break, rest: string)
    ensures NoQuoteFirst(EncodeBreak(end) + rest)
  {
  }

  lemma {:induction false} RunRows(rows: seq<Row>, rest: string, before: seq<seq<string>>)
    requires AllEncodable(rows)
    ensures Run(Encode(rows) + rest, State(before, [], "", false))
            == Run(rest, State(before + Table(rows), [], "", false))
  {
    hide Run, EncodeCells, EncodeBreak, Texts;
    if rows == [] {
      assert Encode(rows) + rest == rest && before + Table(rows) == before;
    } else {
      var st := State(before, [], "", false);
      var cells := rows[0].cells;
      var tail := Encode(rows[1..]) + rest;
      var broken := EncodeBreak(rows[0].end) + tail;
      BreakIsNoQuote(rows[0].end, tail);
      assert Encode(rows) + rest == EncodeCells(cells) + broken;
      RunCells(cells, broken, st);
      var t := Texts(cells);
      RunBreak(rows[0].end, tail, st.(row := [] + t[..|t| - 1], cell := t[|t| - 1]));
      assert ([] + t[..|t| - 1]) + [t[|t| - 1]] == t;
      RunRows(rows[1..], rest, before + [t]);
      assert before + [t] + Table(rows[1..]) == before + Table(rows);
    }
  }

  /** Reading an encoded table gives back the table: any texts, quoted or not, lines ended by LF or CRLF. */
  lemma {:induction false} RoundTrip(rows: seq<Row>)
    requires AllEncodable(rows)
    ensures Parse(Encode(rows)) == Parsed(Table(rows), false)
  {
    RunRows(rows, "", []);
    assert Encode(rows) + "" == Encode(rows) && [] + Table(rows) == Table(rows);
  }

  /** Where the scan of an unterminated last line ends. */
  lemma {:induction false} RunUnterminated(rows: seq<Row>, last: seq<Cell>)
    requires AllEncodable(rows) && Encodable(last)
    ensures |Texts(last)| == |last|
    ensures Run(Encode(rows) + EncodeCells(last), State([], [], "", false))
         == State(Table(rows), Texts(last)[..|last| - 1], Texts(last)[|last| - 1], false)
  {
    hide Encode, EncodeCells, Table, Texts, AllEncodable;
    var st := State(Table(rows), [], "", false);
    RunRows(rows, EncodeCells(last), []);
    assert [] + Table(rows) == Table(rows);
    RunCells(last, "", st);
    assert EncodeCells(last) + "" == EncodeCells(last);
    assert [] + Texts(last)[..|last| - 1] == Texts(last)[..|last| - 1];
  }

  /** The last line may lack its line break exactly when it is not a single empty cell. */
  lemma {:induction false} RoundTripUnterminated(rows: seq<Row>, last: seq<Cell>)
    requires AllEncodable(rows) && Encodable(last)
    ensures Parse(Encode(rows) + EncodeCells(last)) == Parsed(Table(rows) + [Texts(last)], false)
       <==> Texts(last) != [""]
  {
    hide Encode, EncodeCells, Table, Texts, AllEncodable, Run;
    RunUnterminated(rows, last);
    var t := Texts(last);
    assert t == t[..|t| - 1] + [t[|t| - 1]];
    assert |Table(rows) + [t]| == |Table(rows)| + 1;
  }

  // ---------------------------------------------------------------- records

  /** `trim` stands for the removal of surrounding white space. */
  function Trimmed(trim: string -> string, headers: seq<string>): seq<string> {
    if headers == [] then [] else [trim(headers[0])] + Trimmed(trim, headers[1..])
  }

  predicate Blank(trim: string -> string, row: seq<string>) { forall i | 0 <= i < |row| :: trim(row[i]) == "" }

  function NotBlank(trim: string -> string, rows: seq<seq<string>>): seq<seq<string>> {
    if rows == [] then []
    else (if Blank(trim, rows[0]) then [] else [rows[0]]) + NotBlank(trim, rows[1..])
  }

  /** The assignments of one record in header order; a repeated header keeps the last. */
  function Record(trim: string -> string, headers: seq<string>, row: seq<string>, n: nat): map<string, string>
    requires n <= |headers|
  {
    if n == 0 then map[]
    else Record(trim, headers, row, n - 1)[headers[n - 1] := if n - 1 < |row| then trim(row[n - 1]) else ""]
  }

  function RecordsOf(trim: string -> string, headers: seq<string>, rows: seq<seq<string>>): seq<map<string, string>> {
    if rows == [] then [] else [Record(trim, headers, rows[0], |headers|)] + RecordsOf(trim, headers, rows[1..])
  }

  function ParseCsv(trim: string -> string, content: string): seq<map<string, string>> {
    var rows := Parse(content).rows;
    if rows == [] then [] else RecordsOf(trim, Trimmed(trim, rows[0]), NotBlank(trim, rows[1..]))
  }

  predicate Distinct(headers: seq<string>) { forall i, j | 0 <= i < j < |headers| :: headers[i] != headers[j] }

  /** With distinct headers every column of a record is its cell, or empty when the row is short. */
  lemma {:induction false} RecordColumn(trim: string -> string, headers: seq<string>, row: seq<string>, n: nat, j: nat)
    requires Distinct(headers) && j < n <= |headers|
    ensures headers[j] in Record(trim, headers, row, n)
    ensures Record(trim, headers, row, n)[headers[j]] == if j < |row| then trim(row[j]) else ""
  {
    if j < n - 1 { RecordColumn(trim, headers, row, n - 1, j); }
  }

  /** A written table reads back as one record for each line that is not blank. */
  lemma {:induction false} RecordsRoundTrip(trim: string -> string, header: Row, rows: seq<Row>)
    requires AllEncodable([header] + rows)
    ensures ParseCsv(trim, Encode([header] + rows))
         == RecordsOf(trim, Trimmed(trim, Texts(header.cells)), NotBlank(trim, Table(rows)))
  {
    hide RecordsOf, NotBlank, Trimmed, Encode, Parse;
    RoundTrip([header] + rows);
    assert ([header] + rows)[1..] == rows;
    assert Table([header] + rows) == [Texts(header.cells)] + Table(rows);
  }
}
