/**
 * write_report_to_csv: the report rows framed, given an empty ACTION column,
 * and projected onto a fixed column order, keeping only the columns the
 * frame has.
 */
module Spreadsheet {
  import opened Wrappers
  import opened Rows

  /** The columns the CSV keeps, in the order it writes them. */
  const ColumnOrder: seq<string> := ["Full Path", "Item Name", "Item ID", "Role", "Principal Type",
                                     "Email Address", "Owner", "Google Drive URL", "ACTION"]

  /** A written CSV file: the header and one list of cells per row. */
  datatype Table = Table(columns: seq<string>, cells: seq<seq<string>>)

  /** The entries among the first n of `order` that are in `present`, in the order of `order`. */
  function Present(order: seq<string>, present: set<string>, n: nat): (cols: seq<string>)
    requires n <= |order|
    ensures |cols| <= n
    ensures forall c :: c in cols <==> c in order[..n] && c in present
  {
    if n == 0 then []
    else
      assert order[..n] == order[..n - 1] + [order[n - 1]];
      Present(order, present, n - 1) + (if order[n - 1] in present then [order[n - 1]] else [])
  }

  /**
   * Where each kept column sits in `order`: the positions increase, so the
   * kept columns keep the order of `order`.
   */
  function Positions(order: seq<string>, present: set<string>, n: nat): (ix: seq<nat>)
    requires n <= |order|
    ensures |ix| == |Present(order, present, n)|
    ensures forall k :: 0 <= k < |ix| ==> ix[k] < n && order[ix[k]] == Present(order, present, n)[k]
    ensures forall k, l :: 0 <= k < l < |ix| ==> ix[k] < ix[l]
  {
    if n == 0 then []
    else Positions(order, present, n - 1) + (if order[n - 1] in present then [n - 1] else [])
  }

  const Width: nat := |ColumnOrder|

  /**
   * write_report_to_csv(report_data): nothing for empty data; otherwise the
   * columns of ColumnOrder the frame has (ACTION always), and for each row
   * its cells in those columns, blank where the row has no value.
   */
  function ReportCsv(data: seq<Row>): (r: Option<Table>)
    ensures r.None? <==> data == []
    ensures r.Some? ==> |r.value.cells| == |data| && forall i :: 0 <= i < |data| ==> |r.value.cells[i]| == |r.value.columns|
  {
    if data == [] then None
    else
      var cols := Present(ColumnOrder, Columns(data) + {"ACTION"}, Width);
      Some(Table(cols, seq(|data|, i requires 0 <= i < |data| =>
                             seq(|cols|, k requires 0 <= k < |cols| => if cols[k] == "ACTION" then "" else Get(data[i], cols[k])))))
  }

  /**
   * The CSV has one line per report row; its columns are exactly those of
   * ColumnOrder the report has, with ACTION always present and last, at
   * increasing positions of ColumnOrder; each cell is the row's value in that
   * column, and every ACTION cell is blank.
   */
  lemma ReportCsvShape(data: seq<Row>)
    ensures ReportCsv(data).None? <==> data == []
    ensures data != [] ==>
              var t := ReportCsv(data).value;
              var ix := Positions(ColumnOrder, Columns(data) + {"ACTION"}, Width);
              && |t.cells| == |data|
              && (forall c :: c in t.columns <==> c in ColumnOrder && (c == "ACTION" || HasColumn(data, c)))
              && |ix| == |t.columns|
              && (forall k :: 0 <= k < |ix| ==> ColumnOrder[ix[k]] == t.columns[k])
              && (forall k, l :: 0 <= k < l < |ix| ==> ix[k] < ix[l])
              && t.columns != [] && t.columns[|t.columns| - 1] == "ACTION"
              && (forall i :: 0 <= i < |data| ==> |t.cells[i]| == |t.columns|)
              && (forall i, k :: 0 <= i < |data| && 0 <= k < |t.columns| ==>
                    t.cells[i][k] == if t.columns[k] == "ACTION" then "" else Get(data[i], t.columns[k]))
  {
    if data != [] {
      assert ColumnOrder[..Width] == ColumnOrder;
    }
  }

  /** Allow Discovery and Expiration Time never reach the CSV. */
  lemma ReportCsvDropsOthers(data: seq<Row>)
    requires data != []
    ensures "Allow Discovery" !in ReportCsv(data).value.columns
    ensures "Expiration Time" !in ReportCsv(data).value.columns
  {
    assert ColumnOrder[..Width] == ColumnOrder;
  }
}
