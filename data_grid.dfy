/**
 * The data grid page of src/pages/DataGrid.jsx: `convertToCSV`, which writes
 * the grid's rows as comma-separated text, and the row removal of
 * `handleDelete`.
 */
module DataGrid {
  import opened JsValues
  import Strings
  import Lists

  /** A record: its own properties, in the order `Object.keys` lists them. */
  type Row = seq<(string, JsValue)>

  function Keys(row: Row): (keys: seq<string>)
    ensures |keys| == |row| && forall i :: 0 <= i < |row| ==> keys[i] == row[i].0
  {
    seq(|row|, i requires 0 <= i < |row| => row[i].0)
  }

  /** `row[key]`: the value of the row's own property named `key`, `undefined` when there is none. */
  function Get(row: Row, key: string): (v: JsValue)
    ensures key !in Keys(row) ==> v == JUndefined
    ensures key in Keys(row) ==> exists j :: 0 <= j < |row| && row[j] == (key, v) && forall i :: 0 <= i < j ==> row[i].0 != key
  {
    if row == [] then JUndefined
    else if row[0].0 == key then row[0].1
    else Get(row[1..], key)
  }

  /** Whether a key becomes a column: the nested `address` and `company` objects do not. */
  predicate IsColumn(key: string)
  {
    key != "address" && key != "company"
  }

  /** The columns: the first row's keys, in order, without `address` and `company`. */
  function Headers(first: Row): (h: seq<string>)
    ensures forall k :: k in h <==> k in Keys(first) && IsColumn(k)
    ensures forall k :: multiset(h)[k] == if IsColumn(k) then multiset(Keys(first))[k] else 0
    ensures Lists.IsSubsequence(h, Keys(first))
  {
    Lists.FilterIsSubsequence(Keys(first), IsColumn);
    Lists.Filter(Keys(first), IsColumn)
  }

  /** One cell: a string in double quotes, exactly as it is; anything else as `join` writes it. */
  function Cell(v: JsValue): (r: string)
    ensures v.JStr? ==> r == ['"'] + v.s + ['"']
    ensures !v.JStr? ==> r == JoinText(v)
  {
    if v.JStr? then "\"" + v.s + "\"" else JoinText(v)
  }

  /** The cells of one row: one per column, in column order. */
  function Cells(headers: seq<string>, row: Row): (cells: seq<string>)
    ensures |cells| == |headers|
    ensures forall i :: 0 <= i < |headers| ==> cells[i] == Cell(Get(row, headers[i]))
  {
    seq(|headers|, i requires 0 <= i < |headers| => Cell(Get(row, headers[i])))
  }

  /** One row's line: its cells joined by commas. */
  function RowLine(headers: seq<string>, row: Row): string
  {
    Strings.Join(Cells(headers, row), ',')
  }

  /** The row lines, one per row, in row order. */
  function RowLines(headers: seq<string>, rows: seq<Row>): (lines: seq<string>)
    ensures |lines| == |rows|
    ensures forall i :: 0 <= i < |rows| ==> lines[i] == RowLine(headers, rows[i])
  {
    if rows == [] then []
    else RowLines(headers, rows[..|rows| - 1]) + [RowLine(headers, rows[|rows| - 1])]
  }

  /** The lines of the export: the header line, then one line per row. */
  function CsvLines(rows: seq<Row>): (lines: seq<string>)
    requires |rows| > 0
    ensures |lines| == |rows| + 1
    ensures lines[0] == Strings.Join(Headers(rows[0]), ',')
    ensures forall i :: 0 <= i < |rows| ==> lines[i + 1] == RowLine(Headers(rows[0]), rows[i])
  {
    [Strings.Join(Headers(rows[0]), ',')] + RowLines(Headers(rows[0]), rows)
  }

  /**
   * `convertToCSV(data)` (lines 127-144): the empty string for a missing or
   * empty list; otherwise the header line and one line per row, joined by
   * newlines with none at the end.
   */
  method ConvertToCsv(data: Option<seq<Row>>) returns (csv: string)
    ensures data.None? || data.value == [] ==> csv == ""
    ensures data.Some? && data.value != [] ==> csv == Strings.Join(CsvLines(data.value), '\n')
  {
    if data.None? || |data.value| == 0 {
      return "";
    }
    var rows := data.value;
    var headers := Headers(rows[0]);
    var csvRows := [Strings.Join(headers, ',')];
    for i := 0 to |rows|
      invariant csvRows == [Strings.Join(headers, ',')] + RowLines(headers, rows[..i])
    {
      var values := Cells(headers, rows[i]);
      assert rows[..i + 1][..i] == rows[..i];
      csvRows := csvRows + [Strings.Join(values, ',')];
    }
    assert rows[..|rows|] == rows;
    csv := Strings.Join(csvRows, '\n');
  }

  /** No string the export writes holds `c`: neither a column name nor a string value. */
  predicate Avoids(rows: seq<Row>, c: char)
  {
    (|rows| > 0 ==> forall k :: 0 <= k < |rows[0]| ==> c !in rows[0][k].0) &&
    forall i, k :: 0 <= i < |rows| && 0 <= k < |rows[i]| && rows[i][k].1.JStr? ==> c !in rows[i][k].1.s
  }

  /** A cell never holds a character that no string value holds, other than the quotes. */
  lemma CellAvoids(row: Row, key: string, c: char)
    requires forall k :: 0 <= k < |row| && row[k].1.JStr? ==> c !in row[k].1.s
    requires c == '\n' || c == ','
    ensures c !in Cell(Get(row, key))
  {
    var v := Get(row, key);
    if v.JStr? {
      var j :| 0 <= j < |row| && row[j] == (key, v);
      assert c !in row[j].1.s;
    }
  }

  /** The header line holds no character that no column name holds. */
  lemma HeaderAvoids(first: Row, c: char)
    requires c != ','
    requires forall k :: 0 <= k < |first| ==> c !in first[k].0
    ensures c !in Strings.Join(Headers(first), ',')
  {
    var h := Headers(first);
    forall i | 0 <= i < |h|
      ensures c !in h[i]
    {
      assert h[i] in Keys(first);
    }
    Strings.JoinExcludes(h, ',', c);
  }

  /**
   * For n rows whose column names and string values hold no newline, the
   * export is exactly n + 1 lines: splitting it at newlines gives back the
   * header line and the row lines.
   */
  lemma {:induction false} CsvLineStructure(rows: seq<Row>)
    requires |rows| > 0 && Avoids(rows, '\n')
    ensures Strings.Split(Strings.Join(CsvLines(rows), '\n'), '\n') == CsvLines(rows)
    ensures |Strings.Split(Strings.Join(CsvLines(rows), '\n'), '\n')| == |rows| + 1
  {
    var lines := CsvLines(rows);
    var headers := Headers(rows[0]);
    HeaderAvoids(rows[0], '\n');
    forall i | 0 <= i < |lines|
      ensures '\n' !in lines[i]
    {
      if i > 0 {
        var cells := Cells(headers, rows[i - 1]);
        forall j | 0 <= j < |cells|
          ensures '\n' !in cells[j]
        {
          CellAvoids(rows[i - 1], headers[j], '\n');
        }
        Strings.JoinExcludes(cells, ',', '\n');
      }
    }
    Strings.SplitJoin(lines, '\n');
  }

  /**
   * When there is at least one column and no string value holds a comma,
   * every row line splits at commas into exactly one cell per column, in
   * column order.
   */
  lemma {:induction false} RowLineFields(headers: seq<string>, row: Row)
    requires |headers| > 0
    requires forall k :: 0 <= k < |row| && row[k].1.JStr? ==> ',' !in row[k].1.s
    ensures Strings.Split(RowLine(headers, row), ',') == Cells(headers, row)
    ensures |Strings.Split(RowLine(headers, row), ',')| == |headers|
  {
    var cells := Cells(headers, row);
    forall j | 0 <= j < |cells|
      ensures ',' !in cells[j]
    {
      CellAvoids(row, headers[j], ',');
    }
    Strings.SplitJoin(cells, ',');
  }

  /** A key the first row does not have is never a column, whatever later rows hold. */
  lemma OnlyFirstRowKeys(rows: seq<Row>, key: string)
    requires |rows| > 0 && key !in Keys(rows[0])
    ensures key !in Headers(rows[0])
  {
  }

  /** A field as section 2 of RFC 4180 quotes it: in double quotes, each inner quote doubled. */
  function RfcField(s: string): string
  {
    "\"" + DoubleQuotes(s) + "\""
  }

  function DoubleQuotes(s: string): (r: string)
    ensures |r| >= |s|
    ensures '"' in s ==> |r| > |s|
    ensures '"' !in s ==> r == s
  {
    if s == [] then []
    else (if s[0] == '"' then "\"\"" else [s[0]]) + DoubleQuotes(s[1..])
  }

  /** A string cell is written as RFC 4180 requires exactly when the string holds no double quote. */
  lemma CellIsRfcFieldIff(s: string)
    ensures Cell(JStr(s)) == RfcField(s) <==> '"' !in s
  {
    if '"' in s {
      assert |RfcField(s)| > |Cell(JStr(s))|;
    }
  }

  /**
   * `handleDelete` (lines 161-168): once the user confirms, every row whose
   * `id` is strictly equal to the target's goes; otherwise nothing changes.
   */
  function DeleteRow(rows: seq<Row>, target: Row, confirmed: bool): (r: seq<Row>)
    ensures !confirmed ==> r == rows
    ensures confirmed ==> forall x :: multiset(r)[x] == if Get(x, "id") != Get(target, "id") then multiset(rows)[x] else 0
    ensures Lists.IsSubsequence(r, rows)
  {
    if confirmed then
      var keep := (row: Row) => Get(row, "id") != Get(target, "id");
      Lists.FilterIsSubsequence(rows, keep);
      Lists.Filter(rows, keep)
    else
      Lists.SubsequenceOfItself(rows);
      rows
  }
}
