/** The data editor: the records shown 50 to a page, cell edits, appended and removed rows,
    and page navigation. The records belong to the parent screen, which stores every new list
    the editor hands to `onUpdate`; here that list is the `data` field. */
module Spreadsheet {
  import opened Common

  const RowsPerPage: nat := 50

  /** `Math.ceil(n / 50)`. */
  function TotalPages(n: nat): (r: nat)
    ensures r * RowsPerPage >= n
    ensures r > 0 ==> (r - 1) * RowsPerPage < n
    ensures n == 0 <==> r == 0
  {
    (n + RowsPerPage - 1) / RowsPerPage
  }

  function Min(a: int, b: int): int { if a < b then a else b }

  /** `data.slice((page - 1) * 50, (page - 1) * 50 + 50)`: the records shown on `page`. */
  function PageRows(data: seq<Row>, page: nat): (r: seq<Row>)
    requires page >= 1
    ensures |r| <= RowsPerPage
  {
    var start := (page - 1) * RowsPerPage;
    if start >= |data| then [] else data[start..Min(start + RowsPerPage, |data|)]
  }

  /** Pages `1..k` read one after the other. */
  function PagesUpTo(data: seq<Row>, k: nat): seq<Row>
  {
    if k == 0 then [] else PagesUpTo(data, k - 1) + PageRows(data, k)
  }

  /** Page `k` is the slice of the data between the ends of pages `k - 1` and `k`. */
  lemma PageRowsSlice(data: seq<Row>, k: nat, start: nat)
    requires k >= 1 && start == (k - 1) * RowsPerPage
    ensures PageRows(data, k) == data[Min(start, |data|)..Min(start + RowsPerPage, |data|)]
  {
  }

  lemma SliceJoin(s: seq<Row>, a: nat, b: nat)
    requires a <= b <= |s|
    ensures s[..a] + s[a..b] == s[..b]
  {
  }

  /** The first `k` pages hold the first `50 k` records, in order. */
  lemma {:induction false} PagesUpToPrefix(data: seq<Row>, k: nat)
    ensures PagesUpTo(data, k) == data[..Min(k * RowsPerPage, |data|)]
  {
    if k > 0 {
      PagesUpToPrefix(data, k - 1);
      var start := (k - 1) * RowsPerPage;
      assert k * RowsPerPage == start + RowsPerPage;
      PageRowsSlice(data, k, start);
      SliceJoin(data, Min(start, |data|), Min(start + RowsPerPage, |data|));
    }
  }

  /** The pages, read in order, are the data: no record is missed or shown twice. */
  lemma PagesPartitionData(data: seq<Row>)
    ensures PagesUpTo(data, TotalPages(|data|)) == data
  {
    PagesUpToPrefix(data, TotalPages(|data|));
  }

  /** Record `i` is shown on page `i / 50 + 1`, at position `i % 50`. */
  lemma RowOnPage(data: seq<Row>, i: nat)
    requires i < |data|
    ensures 1 <= i / RowsPerPage + 1 <= TotalPages(|data|)
    ensures i % RowsPerPage < |PageRows(data, i / RowsPerPage + 1)|
    ensures PageRows(data, i / RowsPerPage + 1)[i % RowsPerPage] == data[i]
  {
    var p := i / RowsPerPage;
    assert p * RowsPerPage + i % RowsPerPage == i;
  }

  /** Every page other than the last is full. */
  lemma FullPages(data: seq<Row>, page: nat)
    requires 1 <= page < TotalPages(|data|)
    ensures |PageRows(data, page)| == RowsPerPage
  {
  }

  /** The value a new row holds for a column: 0 in number columns, `''` elsewhere. */
  function BlankCell(col: Column): Value
  {
    if col.colType == NumberType then Num(0) else Str("")
  }

  /** The row `columns.forEach` builds: each column key set to its blank cell, a later column
      with the same key overwriting an earlier one. */
  function BlankRow(columns: seq<Column>): Row
  {
    if columns == [] then map[]
    else
      var last := columns[|columns| - 1];
      BlankRow(columns[..|columns| - 1])[last.key := BlankCell(last)]
  }

  /** The blank row has exactly the column keys, each holding the blank cell of the last
      column with that key. */
  lemma {:induction false} BlankRowSpec(columns: seq<Column>)
    ensures BlankRow(columns).Keys == set c | c in columns :: c.key
    ensures forall k :: k in BlankRow(columns) ==>
      exists i :: (0 <= i < |columns| && columns[i].key == k && BlankRow(columns)[k] == BlankCell(columns[i])
        && forall j :: i < j < |columns| ==> columns[j].key != k)
  {
    if columns != [] {
      var init := columns[..|columns| - 1];
      var last := columns[|columns| - 1];
      BlankRowSpec(init);
      assert columns == init + [last];
      forall k | k in BlankRow(columns)
        ensures exists i :: (0 <= i < |columns| && columns[i].key == k && BlankRow(columns)[k] == BlankCell(columns[i])
          && forall j :: i < j < |columns| ==> columns[j].key != k)
      {
        if k == last.key {
          assert columns[|columns| - 1] == last;
        } else {
          var i :| 0 <= i < |init| && init[i].key == k && BlankRow(init)[k] == BlankCell(init[i])
            && forall j :: i < j < |init| ==> init[j].key != k;
          assert columns[i] == init[i];
        }
      }
    }
  }

  class SpreadsheetScreen {
    var data: seq<Row>
    var currentPage: nat

    ghost predicate Valid()
      reads this
    {
      currentPage >= 1
    }

    constructor(records: seq<Row>)
      ensures Valid() && data == records && currentPage == 1
    {
      data := records;
      currentPage := 1;
    }

    /** `currentData`: the records on the current page. */
    function CurrentData(): seq<Row>
      reads this
      requires Valid()
    {
      PageRows(data, currentPage)
    }

    /** `handleCellChange` on the row shown at position `rowIndex` of the current page: that
        record, and only that one, gets `key` set to `value`. */
    method CellChange(rowIndex: nat, key: string, value: Value)
      requires Valid() && rowIndex < |CurrentData()|
      modifies this`data
      ensures Valid()
      ensures var k := (currentPage - 1) * RowsPerPage + rowIndex;
        && |data| == |old(data)| && k < |data|
        && data[k] == old(CurrentData())[rowIndex][key := value]
        && forall j :: 0 <= j < |data| && j != k ==> data[j] == old(data)[j]
    {
      var actualIndex := (currentPage - 1) * RowsPerPage + rowIndex;
      var newData := data;
      newData := newData[actualIndex := newData[actualIndex][key := value]];
      data := newData;
    }

    /** `addRow`: one blank row with the fresh id appended, and the page moved to the last
        one, where that row is shown. */
    method AddRow(columns: seq<Column>, freshId: string)
      requires Valid()
      modifies this`data, this`currentPage
      ensures Valid()
      ensures data == old(data) + [BlankRow(columns)["id" := Str(freshId)]]
      ensures currentPage == TotalPages(|data|)
    {
      var newRow: Row := map[];
      var i := 0;
      while i < |columns|
        invariant 0 <= i <= |columns|
        invariant newRow == BlankRow(columns[..i])
      {
        var col := columns[i];
        assert columns[..i + 1] == columns[..i] + [col];
        newRow := newRow[col.key := if col.colType == NumberType then Num(0) else Str("")];
        i := i + 1;
      }
      assert columns[..i] == columns;
      newRow := newRow["id" := Str(freshId)];
      data := data + [newRow];
      currentPage := TotalPages(|data|);
    }

    /** `removeRow` on the row shown at position `rowIndex` of the current page: that record
        is deleted and the others keep their order; past the end `splice` deletes nothing. */
    method RemoveRow(rowIndex: nat)
      requires Valid()
      modifies this`data
      ensures Valid()
      ensures var k := (currentPage - 1) * RowsPerPage + rowIndex;
        && (k < |old(data)| ==> data == old(data)[..k] + old(data)[k + 1..])
        && (k >= |old(data)| ==> data == old(data))
    {
      var actualIndex := (currentPage - 1) * RowsPerPage + rowIndex;
      if actualIndex < |data| {
        data := data[..actualIndex] + data[actualIndex + 1..];
      }
    }

    /** `goToPage`: the page changes only to an existing page. */
    method GoToPage(page: int)
      requires Valid()
      modifies this`currentPage
      ensures Valid()
      ensures 1 <= page <= TotalPages(|data|) ==> currentPage == page
      ensures !(1 <= page <= TotalPages(|data|)) ==> currentPage == old(currentPage)
    {
      if page >= 1 && page <= TotalPages(|data|) {
        currentPage := page;
      }
    }

    /** A new upload brings the editor back to the first page. */
    method Upload()
      modifies this`currentPage
      ensures Valid() && currentPage == 1
    {
      currentPage := 1;
    }
  }

  /** A row added to the editor is the last row of the page the editor moves to. */
  method AddedRowIsShown(records: seq<Row>, columns: seq<Column>, freshId: string) returns (shown: seq<Row>)
    ensures shown != [] && shown[|shown| - 1] == BlankRow(columns)["id" := Str(freshId)]
  {
    var screen := new SpreadsheetScreen(records);
    screen.AddRow(columns, freshId);
    shown := PageRows(screen.data, screen.currentPage);
    LastRowOnLastPage(screen.data);
  }

  /** The last record is the last one shown on the last page. */
  lemma LastRowOnLastPage(data: seq<Row>)
    requires data != []
    ensures var rows := PageRows(data, TotalPages(|data|));
      rows != [] && rows[|rows| - 1] == data[|data| - 1]
  {
  }
}
