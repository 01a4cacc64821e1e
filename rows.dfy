/**
 * Spreadsheet, CSV and audit-log rows as maps from column name to cell text,
 * and the few pandas behaviours the scripts depend on: a frame's columns are
 * the union of its rows' keys, `fillna('')` turns a missing cell into "", and
 * `str(row.get(col))` on a frame row reads "None" for a column the frame
 * does not have, and a file read back turns the NA marker strings into "".
 */
module Rows {

  type Row = map<string, string>

  /**
   * How a Python function ended: with a value, or with an exception nothing
   * in the function caught (named by its type and key, e.g. "KeyError: 'X'").
   */
  datatype Run<T> = Returned(value: T) | Raised(exception: string)

  /** A cell after fillna(''): the value, or "" when the row lacks the column. */
  function Get(row: Row, col: string): (v: string)
    ensures col in row ==> v == row[col]
    ensures col !in row ==> v == ""
  {
    if col in row then row[col] else ""
  }

  /** `col in df.columns` for a frame built from these rows. */
  predicate HasColumn(rows: seq<Row>, col: string) {
    exists r :: r in rows && col in r
  }

  function Columns(rows: seq<Row>): (cols: set<string>)
    ensures forall c :: c in cols <==> HasColumn(rows, c)
  {
    set r, c | r in rows && c in r :: c
  }

  /**
   * pd.DataFrame(rows).fillna(''): every row gets every column of the frame,
   * "" where it had no value.
   */
  function Frame(rows: seq<Row>): (df: seq<Row>)
    ensures |df| == |rows|
    ensures forall i :: 0 <= i < |rows| ==> df[i].Keys == Columns(rows)
    ensures forall i, c :: 0 <= i < |rows| && c in df[i] ==> df[i][c] == Get(rows[i], c)
  {
    var cols := Columns(rows);
    seq(|rows|, i requires 0 <= i < |rows| => map c | c in cols :: Get(rows[i], c))
  }

  /** Framing keeps the set of columns and every cell's value. */
  lemma FrameColumns(rows: seq<Row>, col: string)
    ensures HasColumn(Frame(rows), col) <==> HasColumn(rows, col)
    ensures forall i :: 0 <= i < |rows| ==> Get(Frame(rows)[i], col) == Get(rows[i], col)
  {
    var df := Frame(rows);
    if HasColumn(rows, col) {
      var r :| r in rows && col in r;
      var i :| 0 <= i < |rows| && rows[i] == r;
      assert col in df[i] && df[i] in df;
    }
  }

  /** `str(row.get(col))` on a frame row: the cell, or "None" without that column. */
  function StrGet(row: Row, col: string): (v: string)
    ensures col in row ==> v == row[col]
    ensures col !in row ==> v == "None"
  {
    if col in row then row[col] else "None"
  }

  /** A cell of a frame built without fillna: a missing value prints as "nan". */
  function RawCell(row: Row, col: string): (v: string)
    ensures col in row ==> v == row[col]
    ensures col !in row ==> v == "nan"
  {
    if col in row then row[col] else "nan"
  }

  /**
   * The strings pandas (version 2) reads as a missing value by default, in
   * read_csv and read_excel alike, besides the empty cell; `dtype=str` does
   * not turn this off.
   */
  const NaMarkers: set<string> := {"#N/A", "#N/A N/A", "#NA", "-1.#IND", "-1.#QNAN", "-NaN", "-nan", "1.#IND", "1.#QNAN",
                                   "<NA>", "N/A", "NA", "NULL", "NaN", "None", "n/a", "nan", "null"}

  /** A written cell read back by pandas and then fillna(''): an NA marker comes back as "". */
  function NaRead(cell: string): (v: string)
    ensures v == "" || v == cell
    ensures v == "" <==> cell == "" || cell in NaMarkers
  {
    if cell in NaMarkers then "" else cell
  }

  /** Reading a cell back twice is reading it back once. */
  lemma NaReadIdempotent(cell: string)
    ensures NaRead(NaRead(cell)) == NaRead(cell)
  {
    assert "" !in NaMarkers;
  }

  /** The action words the logs and sheets hold are not NA markers; the 'N/A' placeholder is one. */
  lemma LiteralsRead()
    ensures NaRead("ADD") == "ADD" && NaRead("REMOVE") == "REMOVE" && NaRead("MODIFY") == "MODIFY"
    ensures NaRead("N/A") == ""
  {
  }

  /** A written row read back by pandas with fillna(''): every NA marker becomes "". */
  function ReadBack(row: Row): (t: Row)
    ensures t.Keys == row.Keys
    ensures forall c :: c in row ==> t[c] == NaRead(row[c])
  {
    map c | c in row :: NaRead(row[c])
  }

  /** No cell of the row is an NA marker. */
  predicate NoNaCells(row: Row) {
    forall c :: c in row ==> row[c] !in NaMarkers
  }

  /** A row holding exactly the read-back cells of another is that row read back. */
  lemma ReadBackMatch(row: Row, t: Row)
    requires t.Keys == row.Keys
    requires forall c :: c in t ==> t[c] == NaRead(Get(row, c))
    ensures t == ReadBack(row)
  {
    var b := ReadBack(row);
    forall c | c in t
      ensures t[c] == b[c]
    {
    }
    assert t == b;
  }

  /** A row without NA marker cells reads back unchanged. */
  lemma ReadBackPlain(row: Row)
    requires NoNaCells(row)
    ensures ReadBack(row) == row
  {
    var b := ReadBack(row);
    forall c | c in b
      ensures b[c] == row[c]
    {
    }
    assert b == row;
  }

  /** A cell of a row without NA marker cells reads back unchanged. */
  lemma PlainCell(row: Row, col: string)
    requires NoNaCells(row)
    ensures NaRead(Get(row, col)) == Get(row, col)
  {
    assert "" !in NaMarkers;
  }

  /** A cell of a row read back is the cell written, read back. */
  lemma GetReadBack(row: Row, col: string)
    ensures Get(ReadBack(row), col) == NaRead(Get(row, col))
  {
    assert "" !in NaMarkers;
  }

  function KeyError(col: string): string {
    "KeyError: '" + col + "'"
  }
}
