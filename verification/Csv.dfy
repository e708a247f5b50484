/**
 The trial balance download of frontend/src/app/erp-business-module-workspace.tsx, read back by a
 parser for the format of section 2 of RFC 4180.
 */
module Csv {
  import opened Text

  type Table = seq<seq<string>>

  const BYTE_ORDER_MARK: char := '\U{feff}'
  const CRLF: string := "\r\n"

  // The printer

  /** `replace(/"/g, '""')`. */
  function DoubleQuotes(s: string): string {
    if s == "" then "" else (if s[0] == '"' then "\"\"" else [s[0]]) + DoubleQuotes(s[1..])
  }

  predicate FormulaStart(c: char) {
    c == '=' || c == '+' || c == '-' || c == '@'
  }

  /** `replace(/^[=+\-@]/, "'$&")`. */
  function Guard(s: string): (r: string)
    ensures r == "" || !FormulaStart(r[0])
  {
    if s != "" && FormulaStart(s[0]) then "'" + s else s
  }

  function PrintCell(cell: string): string {
    "\"" + Guard(DoubleQuotes(cell)) + "\""
  }

  function PrintRow(row: seq<string>): string {
    if |row| == 0 then ""
    else if |row| == 1 then PrintCell(row[0])
    else PrintCell(row[0]) + "," + PrintRow(row[1..])
  }

  function PrintTable(table: Table): string {
    if |table| == 0 then ""
    else if |table| == 1 then PrintRow(table[0])
    else PrintRow(table[0]) + CRLF + PrintTable(table[1..])
  }

  function Download(table: Table): string {
    [BYTE_ORDER_MARK] + PrintTable(table)
  }

  // The parser

  datatype Mode = Start | Bare | Quoted | Closed

  predicate LineBreakAt(t: string) {
    |t| >= 2 && t[0] == '\r' && t[1] == '\n'
  }

  /**
   Reads `t` with the rows `done`, the cells `row` of the current row and the characters `field` of the
   current cell already read.  A final line break is optional.
   */
  function Parse(t: string, mode: Mode, field: string, row: seq<string>, done: Table): Option<Table>
    decreases |t|
  {
    if t == "" then
      if mode.Quoted? then None
      else if mode.Start? && row == [] && done != [] then Some(done)
      else Some(done + [row + [field]])
    else if mode.Quoted? then
      if t[0] == '"' then Parse(t[1..], Closed, field, row, done)
      else Parse(t[1..], Quoted, field + [t[0]], row, done)
    else if t[0] == ',' then Parse(t[1..], Start, "", row + [field], done)
    else if LineBreakAt(t) then Parse(t[2..], Start, "", [], done + [row + [field]])
    else if t[0] == '"' then
      if mode.Start? then Parse(t[1..], Quoted, "", row, done)
      else if mode.Closed? then Parse(t[1..], Quoted, field + ['"'], row, done)
      else None
    else if mode.Closed? || t[0] == '\r' || t[0] == '\n' then None
    else Parse(t[1..], Bare, field + [t[0]], row, done)
  }

  function ReadDownload(text: string): Option<Table> {
    Parse(if text != "" && text[0] == BYTE_ORDER_MARK then text[1..] else text, Start, "", [], [])
  }

  // Round trip

  function GuardRow(row: seq<string>): (r: seq<string>)
    ensures |r| == |row|
  {
    seq(|row|, i requires 0 <= i < |row| => Guard(row[i]))
  }

  function GuardTable(table: Table): (r: Table)
    ensures |r| == |table|
  {
    seq(|table|, i requires 0 <= i < |table| => GuardRow(table[i]))
  }

  predicate HasCells(table: Table) {
    |table| > 0 && forall i :: 0 <= i < |table| ==> |table[i]| > 0
  }

  /** Guarding before or after the quotes are doubled makes no difference. */
  lemma GuardCommutesWithDoubling(s: string)
    ensures Guard(DoubleQuotes(s)) == DoubleQuotes(Guard(s))
  {
    if s != "" && FormulaStart(s[0]) {
      assert ("'" + s)[1..] == s;
    }
  }

  /** Inside quotes, a doubled text is read back and its closing quote ends it. */
  lemma {:induction false} ParseDoubled(s: string, rest: string, field: string, row: seq<string>, done: Table)
    ensures Parse(DoubleQuotes(s) + "\"" + rest, Quoted, field, row, done) == Parse(rest, Closed, field + s, row, done)
  {
    var t := DoubleQuotes(s) + "\"" + rest;
    if s == "" {
      assert t == "\"" + rest && t[1..] == rest;
      assert field + s == field;
    } else {
      var next := DoubleQuotes(s[1..]) + "\"" + rest;
      ParseDoubled(s[1..], rest, field + [s[0]], row, done);
      assert field + [s[0]] + s[1..] == field + s;
      if s[0] == '"' {
        assert t == "\"\"" + next && t[1..] == "\"" + next && t[2..] == next && t[1..][1..] == next;
      } else {
        assert t == [s[0]] + next && t[1..] == next;
      }
    }
  }

  lemma ParseOpenQuote(tail: string, row: seq<string>, done: Table)
    ensures Parse("\"" + tail, Start, "", row, done) == Parse(tail, Quoted, "", row, done)
  {
    assert ("\"" + tail)[1..] == tail;
  }

  lemma Reassociate(a: string, b: string, c: string, d: string)
    ensures a + b + c + d == a + (b + c + d)
    ensures a + b + c + d == a + (b + (c + d))
  {
  }

  lemma ParseCell(cell: string, rest: string, row: seq<string>, done: Table)
    ensures Parse(PrintCell(cell) + rest, Start, "", row, done) == Parse(rest, Closed, Guard(cell), row, done)
  {
    var text := DoubleQuotes(Guard(cell));
    GuardCommutesWithDoubling(cell);
    Reassociate("\"", text, "\"", rest);
    ParseOpenQuote(text + "\"" + rest, row, done);
    ParseDoubled(Guard(cell), rest, "", row, done);
    assert "" + Guard(cell) == Guard(cell);
  }

  lemma ParseComma(tail: string, cell: string, row: seq<string>, done: Table)
    ensures Parse("," + tail, Closed, cell, row, done) == Parse(tail, Start, "", row + [cell], done)
  {
    assert ("," + tail)[1..] == tail;
  }

  /** What is read after the last cell of a row. */
  function AfterRow(rest: string, row: seq<string>, done: Table): Option<Table>
    requires rest == "" || LineBreakAt(rest)
  {
    if rest == "" then Some(done + [row]) else Parse(rest[2..], Start, "", [], done + [row])
  }

  lemma GuardRowCons(cells: seq<string>)
    requires |cells| > 0
    ensures GuardRow(cells) == [Guard(cells[0])] + GuardRow(cells[1..])
  {
  }

  lemma Regroup<T>(a: seq<T>, b: T, c: seq<T>)
    ensures a + ([b] + c) == a + [b] + c
  {
  }

  lemma ParseRowEnd(rest: string, cell: string, row: seq<string>, done: Table)
    requires rest == "" || LineBreakAt(rest)
    ensures Parse(rest, Closed, cell, row, done) == AfterRow(rest, row + [cell], done)
  {
  }

  lemma PrintRowCons(cells: seq<string>, rest: string)
    requires |cells| > 1
    ensures PrintRow(cells) + rest == PrintCell(cells[0]) + ("," + (PrintRow(cells[1..]) + rest))
  {
    Reassociate(PrintCell(cells[0]), ",", PrintRow(cells[1..]), rest);
  }

  lemma {:induction false} ParseRow(cells: seq<string>, rest: string, row: seq<string>, done: Table)
    requires |cells| > 0 && (rest == "" || LineBreakAt(rest))
    ensures Parse(PrintRow(cells) + rest, Start, "", row, done) == AfterRow(rest, row + GuardRow(cells), done)
  {
    if |cells| == 1 {
      ParseCell(cells[0], rest, row, done);
      ParseRowEnd(rest, Guard(cells[0]), row, done);
      assert GuardRow(cells) == [Guard(cells[0])];
    } else {
      var tail := PrintRow(cells[1..]) + rest;
      PrintRowCons(cells, rest);
      ParseCell(cells[0], "," + tail, row, done);
      ParseComma(tail, Guard(cells[0]), row, done);
      ParseRow(cells[1..], rest, row + [Guard(cells[0])], done);
      GuardRowCons(cells);
      Regroup(row, Guard(cells[0]), GuardRow(cells[1..]));
    }
  }

  lemma ParseFirstRow(first: seq<string>, rest: string, done: Table)
    requires |first| > 0 && (rest == "" || LineBreakAt(rest))
    ensures Parse(PrintRow(first) + rest, Start, "", [], done) == AfterRow(rest, GuardRow(first), done)
  {
    ParseRow(first, rest, [], done);
    assert [] + GuardRow(first) == GuardRow(first);
  }

  lemma GuardTableCons(table: Table)
    requires |table| > 0
    ensures GuardTable(table) == [GuardRow(table[0])] + GuardTable(table[1..])
  {
  }

  lemma {:induction false} ParseTable(table: Table, done: Table)
    requires HasCells(table)
    ensures Parse(PrintTable(table), Start, "", [], done) == Some(done + GuardTable(table))
  {
    GuardTableCons(table);
    Regroup(done, GuardRow(table[0]), GuardTable(table[1..]));
    if |table| == 1 {
      assert PrintRow(table[0]) + "" == PrintRow(table[0]);
      ParseFirstRow(table[0], "", done);
      assert GuardTable(table) == [GuardRow(table[0])];
    } else {
      var rest := CRLF + PrintTable(table[1..]);
      assert PrintRow(table[0]) + CRLF + PrintTable(table[1..]) == PrintRow(table[0]) + rest;
      ParseFirstRow(table[0], rest, done);
      assert rest[2..] == PrintTable(table[1..]);
      ParseTable(table[1..], done + [GuardRow(table[0])]);
    }
  }

  /** Reading the download gives back the table, cell for cell, with the formula guard applied to each cell. */
  lemma DownloadRoundTrip(table: Table)
    requires HasCells(table)
    ensures ReadDownload(Download(table)) == Some(GuardTable(table))
  {
    ParseTable(table, []);
    assert Download(table)[1..] == PrintTable(table);
    assert [] + GuardTable(table) == GuardTable(table);
  }

  lemma {:induction false} PrintRowDependsOnGuard(a: seq<string>, b: seq<string>)
    requires GuardRow(a) == GuardRow(b)
    ensures PrintRow(a) == PrintRow(b)
  {
    if |a| > 0 {
      assert GuardRow(a)[0] == GuardRow(b)[0];
      GuardCommutesWithDoubling(a[0]);
      GuardCommutesWithDoubling(b[0]);
      assert |a| == |GuardRow(a)| == |b|;
      forall i | 0 <= i < |a| - 1
        ensures GuardRow(a[1..])[i] == GuardRow(b[1..])[i]
      {
        assert GuardRow(a)[i + 1] == GuardRow(b)[i + 1];
      }
      PrintRowDependsOnGuard(a[1..], b[1..]);
    }
  }

  lemma {:induction false} PrintDependsOnGuard(a: Table, b: Table)
    requires GuardTable(a) == GuardTable(b)
    ensures PrintTable(a) == PrintTable(b)
  {
    if |a| > 0 {
      assert |a| == |GuardTable(a)| == |b|;
      assert GuardTable(a)[0] == GuardTable(b)[0];
      PrintRowDependsOnGuard(a[0], b[0]);
      forall i | 0 <= i < |a| - 1
        ensures GuardTable(a[1..])[i] == GuardTable(b[1..])[i]
      {
        assert GuardTable(a)[i + 1] == GuardTable(b)[i + 1];
      }
      PrintDependsOnGuard(a[1..], b[1..]);
    }
  }

  /** Two tables give the same file exactly when they agree up to the guard. */
  lemma DownloadFaithful(a: Table, b: Table)
    requires HasCells(a) && HasCells(b)
    ensures Download(a) == Download(b) <==> GuardTable(a) == GuardTable(b)
  {
    if Download(a) == Download(b) {
      DownloadRoundTrip(a);
      DownloadRoundTrip(b);
    }
    if GuardTable(a) == GuardTable(b) {
      PrintDependsOnGuard(a, b);
    }
  }

  /** No cell starts with one of the four characters. */
  predicate FormulaFree(table: Table) {
    forall i, j :: 0 <= i < |table| && 0 <= j < |table[i]| && table[i][j] != "" ==> table[i][j][0] !in "=+-@"
  }

  /** The file starts with a byte order mark, and every cell comes back as it was or behind one apostrophe. */
  lemma DownloadCells(table: Table, i: nat, j: nat)
    requires HasCells(table) && i < |table| && j < |table[i]|
    ensures Download(table) != "" && Download(table)[0] == '\U{feff}'
    ensures var read := ReadDownload(Download(table));
            && read.Some? && |read.value| == |table| && |read.value[i]| == |table[i]|
            && read.value[i][j] ==
               (if table[i][j] != "" && table[i][j][0] in "=+-@" then "'" + table[i][j] else table[i][j])
  {
    DownloadRoundTrip(table);
    GuardTableAt(table, i, j);
  }

  lemma GuardFixpointIff(s: string)
    ensures Guard(s) == s <==> s == "" || s[0] !in "=+-@"
  {
    if s != "" && FormulaStart(s[0]) {
      assert |Guard(s)| == |s| + 1;
    }
  }

  lemma GuardTableAt(table: Table, i: nat, j: nat)
    requires i < |table| && j < |table[i]|
    ensures GuardTable(table)[i] == GuardRow(table[i]) && GuardTable(table)[i][j] == Guard(table[i][j])
  {
  }

  /** The download is undone by reading it exactly when no cell starts with `=`, `+`, `-` or `@`. */
  lemma DownloadExactIff(table: Table)
    requires HasCells(table)
    ensures ReadDownload(Download(table)) == Some(table) <==> FormulaFree(table)
  {
    DownloadRoundTrip(table);
    if GuardTable(table) == table {
      forall i, j | 0 <= i < |table| && 0 <= j < |table[i]| && table[i][j] != ""
        ensures table[i][j][0] !in "=+-@"
      {
        GuardTableAt(table, i, j);
        GuardFixpointIff(table[i][j]);
      }
    }
    if FormulaFree(table) {
      forall i | 0 <= i < |table|
        ensures GuardRow(table[i]) == table[i]
      {
        forall j | 0 <= j < |table[i]|
          ensures Guard(table[i][j]) == table[i][j]
        {
          GuardFixpointIff(table[i][j]);
        }
      }
      assert GuardTable(table) == table;
    }
  }

  /** No cell a spreadsheet reads from the download starts a formula. */
  lemma NoFormulaInDownload(table: Table, i: nat, j: nat)
    requires HasCells(table)
    requires var cells := ReadDownload(Download(table));
             cells.Some? && i < |cells.value| && j < |cells.value[i]| && cells.value[i][j] != ""
    ensures ReadDownload(Download(table)).value[i][j][0] !in "=+-@"
  {
    DownloadRoundTrip(table);
    assert GuardTable(table)[i] == GuardRow(table[i]);
    assert GuardRow(table[i])[j] == Guard(table[i][j]);
  }
}
