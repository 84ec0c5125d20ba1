// parseCsv() of compare.js: a character loop over a row, a field and a quote flag, and the records it makes.

module Csv {
  datatype State = State(out: seq<seq<string>>, row: seq<string>, field: string, quoted: bool)

  type Record = map<string, string>

  const START := State([], [], "", false)

  // ------------------------------------------------------------------ the loop

  function EndField(st: State): State {
    st.(row := st.row + [st.field], field := "")
  }

  function EndRow(st: State): State {
    st.(out := st.out + [st.row + [st.field]], row := [], field := "")
  }

  // What the loop leaves after the rest of the text. A doubled quote inside quotes takes two characters.
  function Scan(text: string, st: State): State {
    if text == "" then st
    else
      var c, rest := text[0], text[1..];
      if st.quoted then
        if c != '"' then Scan(rest, st.(field := st.field + [c]))
        else if rest != "" && rest[0] == '"' then Scan(rest[1..], st.(field := st.field + "\""))
        else Scan(rest, st.(quoted := false))
      else if c == '"' then Scan(rest, st.(quoted := true))
      else if c == ',' then Scan(rest, EndField(st))
      else if c == '\n' then Scan(rest, EndRow(st))
      else if c == '\r' then Scan(rest, st)
      else Scan(rest, st.(field := st.field + [c]))
  }

  // A last row without a line end counts unless it is one empty field.
  function Finish(st: State): seq<seq<string>> {
    if st.field != "" || st.row != [] then EndRow(st).out else st.out
  }

  function Rows(text: string): seq<seq<string>> {
    Finish(Scan(text, START))
  }

  // Object.fromEntries(h.map((k, i) => [k, x[i]])) on the first n columns.
  function FromEntries(h: seq<string>, x: seq<string>, n: nat): (m: Record)
    requires n <= |h| == |x|
    ensures m.Keys == set i | 0 <= i < n :: h[i]
  {
    if n == 0 then map[] else FromEntries(h, x, n - 1)[h[n - 1] := x[n - 1]]
  }

  function WideRecords(h: seq<string>, rest: seq<seq<string>>): seq<Record> {
    if rest == [] then []
    else (if |rest[0]| == |h| then [FromEntries(h, rest[0], |h|)] else []) + WideRecords(h, rest[1..])
  }

  function Records(rows: seq<seq<string>>): seq<Record> {
    if rows == [] then [] else WideRecords(rows[0], rows[1..])
  }

  lemma {:induction false} WideRecordsAppend(h: seq<string>, a: seq<seq<string>>, x: seq<string>)
    ensures WideRecords(h, a + [x]) ==
            WideRecords(h, a) + if |x| == |h| then [FromEntries(h, x, |h|)] else []
  {
    hide FromEntries;
    if a == [] {
      assert a + [x] == [x];
    } else {
      assert (a + [x])[1..] == a[1..] + [x] && (a + [x])[0] == a[0];
      WideRecordsAppend(h, a[1..], x);
      var first := if |a[0]| == |h| then [FromEntries(h, a[0], |h|)] else [];
      var last := if |x| == |h| then [FromEntries(h, x, |h|)] else [];
      assert first + (WideRecords(h, a[1..]) + last) == first + WideRecords(h, a[1..]) + last;
    }
  }

  method ReadRows(text: string) returns (out: seq<seq<string>>)
    ensures out == Rows(text)
  {
    out := [];
    var row: seq<string>, f, q, i := [], "", false, 0;
    assert text[0..] == text;
    while i < |text|
      invariant i <= |text| && Scan(text[i..], State(out, row, f, q)) == Scan(text, START)
    {
      var c := text[i];
      assert text[i..][1..] == text[i + 1..];
      if q {
        if c == '"' {
          if i + 1 < |text| && text[i + 1] == '"' {
            assert text[i + 1..][1..] == text[i + 2..];
            f := f + "\"";
            i := i + 1;
          } else {
            q := false;
          }
        } else {
          f := f + [c];
        }
      } else if c == '"' {
        q := true;
      } else if c == ',' {
        row := row + [f];
        f := "";
      } else if c == '\n' {
        row := row + [f];
        out := out + [row];
        row := [];
        f := "";
      } else if c != '\r' {
        f := f + [c];
      }
      i := i + 1;
    }
    assert text[|text|..] == "";
    if f != "" || row != [] {
      row := row + [f];
      out := out + [row];
    }
  }

  method ParseCsv(text: string) returns (records: seq<Record>)
    ensures records == Records(Rows(text))
  {
    hide Rows;
    var rows := ReadRows(text);
    records := [];
    if rows == [] {
      return;
    }
    var h, rest := rows[0], rows[1..];
    assert rest[..0] == [];
    for i := 0 to |rest|
      invariant records == WideRecords(h, rest[..i])
    {
      assert rest[..i + 1] == rest[..i] + [rest[i]];
      WideRecordsAppend(h, rest[..i], rest[i]);
      if |rest[i]| == |h| {
        var m: Record := map[];
        for k := 0 to |h|
          invariant m == FromEntries(h, rest[i], k)
        {
          m := m[h[k] := rest[i][k]];
        }
        records := records + [m];
      }
    }
    assert rest[..|rest|] == rest;
  }

  // ------------------------------------------------------------------ written tables (section 2 of RFC 4180)

  datatype Cell = Cell(value: string, quoted: bool)
  datatype Line = Line(cells: seq<Cell>, crlf: bool)

  // A cell may stand without quotes when it holds no comma, quote or line break.
  predicate Written(c: Cell) {
    c.quoted || forall i :: 0 <= i < |c.value| ==> c.value[i] !in {',', '"', '\r', '\n'}
  }

  predicate WrittenCells(cells: seq<Cell>) {
    cells != [] && forall i :: 0 <= i < |cells| ==> Written(cells[i])
  }

  function Doubled(v: string): string {
    if v == "" then "" else (if v[0] == '"' then "\"\"" else [v[0]]) + Doubled(v[1..])
  }

  function CellText(c: Cell): string {
    if c.quoted then "\"" + (Doubled(c.value) + "\"") else c.value
  }

  function CellsText(cells: seq<Cell>): string
    requires cells != []
  {
    CellText(cells[0]) + if |cells| == 1 then "" else "," + CellsText(cells[1..])
  }

  function LineEnd(crlf: bool): string {
    if crlf then "\r\n" else "\n"
  }

  function Text(lines: seq<Line>): string
    requires forall i :: 0 <= i < |lines| ==> lines[i].cells != []
  {
    if lines == [] then "" else CellsText(lines[0].cells) + (LineEnd(lines[0].crlf) + Text(lines[1..]))
  }

  function Values(cells: seq<Cell>): (v: seq<string>)
    ensures |v| == |cells|
  {
    seq(|cells|, i requires 0 <= i < |cells| => cells[i].value)
  }

  function LineValues(lines: seq<Line>): (v: seq<seq<string>>)
    ensures |v| == |lines|
  {
    seq(|lines|, i requires 0 <= i < |lines| => Values(lines[i].cells))
  }

  predicate WrittenLines(lines: seq<Line>) {
    forall i :: 0 <= i < |lines| ==> WrittenCells(lines[i].cells)
  }

  // ------------------------------------------------------------------ reading back

  lemma {:induction false} ScanPlain(v: string, rest: string, st: State)
    requires !st.quoted && Written(Cell(v, false))
    ensures Scan(v + rest, st) == Scan(rest, st.(field := st.field + v))
    decreases |v|
  {
    if v == "" {
      assert v + rest == rest && st.field + v == st.field;
    } else {
      var c := v[0];
      assert (v + rest)[1..] == v[1..] + rest;
      assert c !in {',', '"', '\r', '\n'};
      ScanPlain(v[1..], rest, st.(field := st.field + [c]));
      assert st.field + [c] + v[1..] == st.field + v;
    }
  }

  lemma {:induction false} ScanInQuotes(v: string, rest: string, st: State)
    requires st.quoted && (rest != "" ==> rest[0] != '"')
    ensures Scan(Doubled(v) + "\"" + rest, st) == Scan(rest, st.(field := st.field + v, quoted := false))
    decreases |v|
  {
    var text := Doubled(v) + "\"" + rest;
    if v == "" {
      assert text[1..] == rest && st.field + v == st.field;
    } else {
      var c, tail := v[0], Doubled(v[1..]) + "\"" + rest;
      var after := st.(field := st.field + [c]);
      ScanInQuotes(v[1..], rest, after);
      assert st.field + [c] + v[1..] == st.field + v;
      if c == '"' {
        assert text[1..][1..] == tail;
      } else {
        assert text[1..] == tail;
      }
    }
  }

  lemma {:induction false} ScanCell(c: Cell, rest: string, st: State)
    requires Written(c) && !st.quoted && st.field == "" && (rest != "" ==> rest[0] != '"')
    ensures Scan(CellText(c) + rest, st) == Scan(rest, st.(field := c.value))
  {
    assert "" + c.value == c.value;
    if c.quoted {
      assert (CellText(c) + rest)[1..] == Doubled(c.value) + "\"" + rest;
      ScanInQuotes(c.value, rest, st.(quoted := true));
    } else {
      assert c == Cell(c.value, false);
      ScanPlain(c.value, rest, st);
    }
  }

  // The cells of a line are read into the row, all but the last, which is left in the field.
  lemma {:induction false} ScanCells(cells: seq<Cell>, rest: string, st: State)
    requires WrittenCells(cells) && !st.quoted && st.field == "" && (rest != "" ==> rest[0] != '"')
    ensures var v := Values(cells);
            Scan(CellsText(cells) + rest, st) ==
            Scan(rest, st.(row := st.row + v[..|v| - 1], field := v[|v| - 1]))
    decreases |cells|
  {
    hide Scan, CellText, Written;
    var v := Values(cells);
    if |cells| == 1 {
      assert CellsText(cells) + rest == CellText(cells[0]) + rest;
      ScanCell(cells[0], rest, st);
      assert st.row + v[..0] == st.row;
    } else {
      var tail := CellsText(cells[1..]) + rest;
      assert CellsText(cells) + rest == CellText(cells[0]) + ("," + tail);
      ScanCell(cells[0], "," + tail, st);
      ScanComma(tail, st.(field := cells[0].value));
      var next := st.(row := st.row + [v[0]]);
      ScanCells(cells[1..], rest, next);
      assert Values(cells[1..]) == v[1..];
      assert st.row + [v[0]] + v[1..][..|v| - 2] == st.row + v[..|v| - 1];
    }
  }

  lemma {:induction false} ScanComma(rest: string, st: State)
    requires !st.quoted
    ensures Scan("," + rest, st) == Scan(rest, EndField(st))
  {
    assert ("," + rest)[1..] == rest;
  }

  lemma {:induction false} ScanLineEnd(crlf: bool, rest: string, st: State)
    requires !st.quoted
    ensures Scan(LineEnd(crlf) + rest, st) == Scan(rest, EndRow(st))
  {
    assert ("\n" + rest)[1..] == rest;
    if crlf {
      assert (LineEnd(crlf) + rest)[1..] == "\n" + rest;
    }
  }

  lemma {:induction false} ScanLine(line: Line, rest: string, st: State)
    requires WrittenCells(line.cells) && !st.quoted && st.field == "" && st.row == []
    ensures Scan(CellsText(line.cells) + (LineEnd(line.crlf) + rest), st) ==
            Scan(rest, st.(out := st.out + [Values(line.cells)]))
  {
    hide Scan, CellsText, Written;
    var v := Values(line.cells);
    ScanCells(line.cells, LineEnd(line.crlf) + rest, st);
    var read := st.(row := st.row + v[..|v| - 1], field := v[|v| - 1]);
    ScanLineEnd(line.crlf, rest, read);
    assert read.row + [read.field] == v;
  }

  lemma {:induction false} ScanLines(lines: seq<Line>, rest: string, st: State)
    requires WrittenLines(lines) && !st.quoted && st.field == "" && st.row == []
    ensures Scan(Text(lines) + rest, st) == Scan(rest, st.(out := st.out + LineValues(lines)))
    decreases |lines|
  {
    hide Scan, CellsText, Written, LineEnd, Values;
    if lines == [] {
      assert Text(lines) + rest == rest && st.out + LineValues(lines) == st.out;
    } else {
      var line, tail := lines[0], Text(lines[1..]) + rest;
      assert Text(lines) + rest == CellsText(line.cells) + (LineEnd(line.crlf) + tail);
      ScanLine(line, tail, st);
      ScanLines(lines[1..], rest, st.(out := st.out + [Values(line.cells)]));
      assert st.out + [Values(line.cells)] + LineValues(lines[1..]) == st.out + LineValues(lines);
    }
  }

  // A written table whose lines all end reads back cell by cell.
  lemma {:induction false} RowsReadBack(lines: seq<Line>)
    requires WrittenLines(lines)
    ensures Rows(Text(lines)) == LineValues(lines)
  {
    hide Text, LineValues;
    ScanLines(lines, "", START);
    assert Text(lines) + "" == Text(lines);
    assert Scan("", START.(out := [] + LineValues(lines))) == START.(out := LineValues(lines));
  }

  // A last line without its end reads back too, exactly unless it is one empty cell.
  lemma {:induction false} OpenLastLine(lines: seq<Line>, last: seq<Cell>)
    requires WrittenLines(lines) && WrittenCells(last)
    ensures Rows(Text(lines) + CellsText(last)) ==
            LineValues(lines) + if |last| > 1 || last[0].value != "" then [Values(last)] else []
  {
    hide Text, LineValues, CellsText, Written;
    ScanLines(lines, CellsText(last), START);
    var read := START.(out := [] + LineValues(lines));
    assert read.out == LineValues(lines);
    ScanCells(last, "", read);
    assert CellsText(last) + "" == CellsText(last);
    var v := Values(last);
    var done := read.(row := [] + v[..|v| - 1], field := v[|v| - 1]);
    assert Scan("", done) == done && done.row + [done.field] == v;
  }

  // ------------------------------------------------------------------ records

  predicate Distinct(h: seq<string>) {
    forall i, j :: 0 <= i < j < |h| ==> h[i] != h[j]
  }

  // Among columns of one name the last one gives the value.
  lemma {:induction false} LastColumnWins(h: seq<string>, x: seq<string>, n: nat, i: nat)
    requires i < n <= |h| == |x|
    requires forall j :: i < j < n ==> h[j] != h[i]
    ensures FromEntries(h, x, n)[h[i]] == x[i]
    decreases n
  {
    if i < n - 1 {
      LastColumnWins(h, x, n - 1, i);
    }
  }

  function Column(h: seq<string>, m: Record): (x: seq<string>)
    requires m.Keys == set i | 0 <= i < |h| :: h[i]
    ensures |x| == |h|
  {
    seq(|h|, i requires 0 <= i < |h| => m[h[i]])
  }

  lemma {:induction false} RecordBack(h: seq<string>, m: Record)
    requires Distinct(h) && m.Keys == set i | 0 <= i < |h| :: h[i]
    ensures FromEntries(h, Column(h, m), |h|) == m
  {
    var x := Column(h, m);
    forall k | k in m
      ensures FromEntries(h, x, |h|)[k] == m[k]
    {
      var i :| 0 <= i < |h| && h[i] == k;
      LastColumnWins(h, x, |h|, i);
    }
  }

  predicate HasHeader(h: seq<string>, records: seq<Record>) {
    forall i :: 0 <= i < |records| ==> records[i].Keys == set k | 0 <= k < |h| :: h[k]
  }

  function Table(h: seq<string>, records: seq<Record>): (t: seq<seq<string>>)
    requires HasHeader(h, records)
    ensures |t| == |records|
  {
    seq(|records|, i requires 0 <= i < |records| => Column(h, records[i]))
  }

  lemma {:induction false} WideRecordsBack(h: seq<string>, records: seq<Record>)
    requires Distinct(h) && HasHeader(h, records)
    ensures WideRecords(h, Table(h, records)) == records
    decreases |records|
  {
    hide FromEntries, Column;
    if records != [] {
      var t := Table(h, records);
      RecordBack(h, records[0]);
      WideRecordsBack(h, records[1..]);
      assert t[1..] == Table(h, records[1..]);
      assert records == [records[0]] + records[1..];
    }
  }

  // Records written under distinct column names, with any quoting and any line ends, are read back in order.
  lemma {:induction false} RoundTrip(h: seq<string>, records: seq<Record>, lines: seq<Line>)
    requires Distinct(h) && HasHeader(h, records)
    requires WrittenLines(lines) && LineValues(lines) == [h] + Table(h, records)
    ensures Records(Rows(Text(lines))) == records
  {
    hide Rows, Text, WrittenLines, LineValues, WideRecords, Table;
    RowsReadBack(lines);
    WideRecordsBack(h, records);
    assert ([h] + Table(h, records))[1..] == Table(h, records);
  }

  // ------------------------------------------------------------------ every text

  predicate NoEmptyRow(out: seq<seq<string>>) {
    forall i :: 0 <= i < |out| ==> out[i] != []
  }

  lemma {:induction false} ScanKeepsRows(text: string, st: State)
    requires NoEmptyRow(st.out)
    ensures NoEmptyRow(Scan(text, st).out)
    decreases |text|
  {
    if text != "" {
      var c, rest := text[0], text[1..];
      if st.quoted {
        if c != '"' {
          ScanKeepsRows(rest, st.(field := st.field + [c]));
        } else if rest != "" && rest[0] == '"' {
          ScanKeepsRows(rest[1..], st.(field := st.field + "\""));
        } else {
          ScanKeepsRows(rest, st.(quoted := false));
        }
      } else if c == '"' {
        ScanKeepsRows(rest, st.(quoted := true));
      } else if c == ',' {
        ScanKeepsRows(rest, EndField(st));
      } else if c == '\n' {
        ScanKeepsRows(rest, EndRow(st));
      } else if c == '\r' {
        ScanKeepsRows(rest, st);
      } else {
        ScanKeepsRows(rest, st.(field := st.field + [c]));
      }
    }
  }

  function AllQuoted(row: seq<string>): (cells: seq<Cell>)
    ensures |cells| == |row|
  {
    seq(|row|, i requires 0 <= i < |row| => Cell(row[i], true))
  }

  function Normal(rows: seq<seq<string>>): (lines: seq<Line>)
    ensures |lines| == |rows|
  {
    seq(|rows|, i requires 0 <= i < |rows| => Line(AllQuoted(rows[i]), false))
  }

  lemma {:induction false} NormalLines(rows: seq<seq<string>>)
    requires NoEmptyRow(rows)
    ensures WrittenLines(Normal(rows)) && LineValues(Normal(rows)) == rows
  {
    forall i | 0 <= i < |rows|
      ensures Values(AllQuoted(rows[i])) == rows[i]
    {
    }
  }

  // Any text at all, well quoted or not, reads as the table of its rows with every field quoted does.
  lemma {:induction false} NormalFormReadsTheSame(text: string)
    ensures WrittenLines(Normal(Rows(text))) && Rows(Text(Normal(Rows(text)))) == Rows(text)
  {
    hide Scan, Text, WrittenLines, LineValues;
    ScanKeepsRows(text, START);
    NormalLines(Rows(text));
    RowsReadBack(Normal(Rows(text)));
  }
}
