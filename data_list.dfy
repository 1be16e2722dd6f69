/**
 * The state the record list component (`RbList` in rb-list.jsx) keeps under
 * its rendering: the columns with their sort marker, the loaded rows with
 * their checked flag, the selection derived from them, the query sent for a
 * page, and the paging guards of `RbListPagination`.
 */
module DataList {
  import opened Wrappers
  import opened Text
  import opened JsonValues

  /** A list column: its field name and its sort marker ("sort-asc", "sort-desc" or none). */
  datatype Column = Column(field: string, sort: Option<string>)

  /**
   * A loaded row: its data cells, and the `[id, checked]` pair that replaces
   * the record id in the row's last cell.
   */
  datatype Row = Row(cells: seq<Json>, id: Json, checked: bool)

  const SortAsc: string := "sort-asc"
  const SortDesc: string := "sort-desc"

  // ---- sorting -----------------------------------------------------------------

  /** `!!item.sort`: the column carries a non-empty sort marker. */
  predicate IsSorted(c: Column) {
    c.sort.Some? && c.sort.value != ""
  }

  /** What `fieldSort(f)` does to one column. */
  function ToggledFor(c: Column, f: string): Column {
    if c.field == f then c.(sort := Some(if c.sort == Some(SortAsc) then SortDesc else SortAsc))
    else c.(sort := None)
  }

  /** The columns after `fieldSort(f)`. */
  function SortedBy(cols: seq<Column>, f: string): seq<Column> {
    seq(|cols|, i requires 0 <= i < |cols| => ToggledFor(cols[i], f))
  }

  /**
   * After `fieldSort(f)` the sorted columns are exactly those named f, no
   * column changes its field, and the sort marker of a column named f is
   * "sort-desc" when it was "sort-asc" and "sort-asc" otherwise.
   */
  lemma SortedByMarksExactlyField(cols: seq<Column>, f: string)
    ensures |SortedBy(cols, f)| == |cols|
    ensures forall i :: 0 <= i < |cols| ==> SortedBy(cols, f)[i].field == cols[i].field
    ensures forall i :: 0 <= i < |cols| ==> (IsSorted(SortedBy(cols, f)[i]) <==> cols[i].field == f)
    ensures forall i :: 0 <= i < |cols| && cols[i].field == f ==>
              SortedBy(cols, f)[i].sort == Some(if cols[i].sort == Some(SortAsc) then SortDesc else SortAsc)
  {
  }

  /** Clicking the same column twice gives it back the direction it had after the first click. */
  lemma SortAlternates(cols: seq<Column>, f: string, i: int)
    requires 0 <= i < |cols| && cols[i].field == f
    ensures var once := SortedBy(cols, f);
            var twice := SortedBy(once, f);
            && once[i].sort != twice[i].sort
            && {once[i].sort, twice[i].sort} == {Some(SortAsc), Some(SortDesc)}
            && SortedBy(twice, f)[i].sort == once[i].sort
  {
  }

  /** The sort token of a sorted column: "field:asc" or "field:desc". */
  function SortTokenOf(c: Column): string
    requires IsSorted(c)
  {
    c.field + ":" + ReplaceFirst(c.sort.value, "sort-", "")
  }

  /** The token `fetchList` sends: that of the LAST sorted column, or null when none is sorted. */
  function LastSortToken(cols: seq<Column>): Option<string> {
    if |cols| == 0 then None
    else if IsSorted(cols[|cols| - 1]) then Some(SortTokenOf(cols[|cols| - 1]))
    else LastSortToken(cols[..|cols| - 1])
  }

  /** The token is absent exactly when no column is sorted, and otherwise belongs to the last sorted one. */
  lemma LastSortTokenIsLast(cols: seq<Column>)
    ensures LastSortToken(cols).None? <==> forall i :: 0 <= i < |cols| ==> !IsSorted(cols[i])
    ensures LastSortToken(cols).Some? ==>
              exists k :: 0 <= k < |cols| && IsSorted(cols[k]) && LastSortToken(cols).value == SortTokenOf(cols[k])
                          && forall j :: k < j < |cols| ==> !IsSorted(cols[j])
  {
    NoSortedNoToken(cols);
    if LastSortToken(cols).Some? {
      var k := LastSortedIndex(cols);
    }
  }

  /** The token is absent exactly when no column is sorted. */
  lemma {:induction false} NoSortedNoToken(cols: seq<Column>)
    ensures LastSortToken(cols).None? <==> forall i :: 0 <= i < |cols| ==> !IsSorted(cols[i])
  {
    if |cols| > 0 {
      var init := cols[..|cols| - 1];
      NoSortedNoToken(init);
      assert forall i :: 0 <= i < |init| ==> init[i] == cols[i];
    }
  }

  /** The position of the column the token comes from: sorted, and followed only by unsorted columns. */
  lemma {:induction false} LastSortedIndex(cols: seq<Column>) returns (k: int)
    requires LastSortToken(cols).Some?
    ensures 0 <= k < |cols| && IsSorted(cols[k]) && LastSortToken(cols).value == SortTokenOf(cols[k])
    ensures forall j :: k < j < |cols| ==> !IsSorted(cols[j])
  {
    var n := |cols| - 1;
    if IsSorted(cols[n]) {
      k := n;
    } else {
      var init := cols[..n];
      k := LastSortedIndex(init);
      assert cols[k] == init[k];
      assert forall j :: k < j < n ==> cols[j] == init[j];
    }
  }

  lemma {:induction false} TokenOfOnlySorted(cols: seq<Column>, k: int)
    requires 0 <= k < |cols| && IsSorted(cols[k])
    requires forall j :: 0 <= j < |cols| && j != k ==> !IsSorted(cols[j])
    ensures LastSortToken(cols) == Some(SortTokenOf(cols[k]))
  {
    if k < |cols| - 1 {
      var init := cols[..|cols| - 1];
      assert init[k] == cols[k];
      TokenOfOnlySorted(init, k);
    }
  }

  /**
   * When exactly one column is named f, the query after `fieldSort(f)` sorts
   * by f: descending when that column was ascending, ascending otherwise.
   */
  lemma TokenAfterFieldSort(cols: seq<Column>, f: string, k: int)
    requires 0 <= k < |cols| && cols[k].field == f
    requires forall j :: 0 <= j < |cols| && j != k ==> cols[j].field != f
    ensures LastSortToken(SortedBy(cols, f)) == Some(f + ":" + (if cols[k].sort == Some(SortAsc) then "desc" else "asc"))
  {
    var s := SortedBy(cols, f);
    SortedByMarksExactlyField(cols, f);
    TokenOfOnlySorted(s, k);
    ReplaceLeadingPattern("sort-", "desc", "");
    ReplaceLeadingPattern("sort-", "asc", "");
    assert SortDesc == "sort-" + "desc" && SortAsc == "sort-" + "asc";
    assert "" + "desc" == "desc" && "" + "asc" == "asc";
    if cols[k].sort == Some(SortAsc) {
      assert s[k].sort == Some(SortDesc);
    } else {
      assert s[k].sort == Some(SortAsc);
    }
  }

  // ---- rows and selection ------------------------------------------------------

  /** The ids of the checked rows, in row order (`componentDidUpdate`). */
  function CheckedIds(rs: seq<Row>): seq<Json> {
    if |rs| == 0 then []
    else CheckedIds(rs[..|rs| - 1]) + (if rs[|rs| - 1].checked then [rs[|rs| - 1].id] else [])
  }

  function Ids(rs: seq<Row>): seq<Json> {
    seq(|rs|, i requires 0 <= i < |rs| => rs[i].id)
  }

  function CheckedIndices(rs: seq<Row>): set<int> {
    set i | 0 <= i < |rs| && rs[i].checked
  }

  /** The selected ids are those of checked rows, one per checked row. */
  lemma {:induction false} CheckedIdsAreCheckedRows(rs: seq<Row>)
    ensures forall x :: x in CheckedIds(rs) <==> exists i :: 0 <= i < |rs| && rs[i].checked && rs[i].id == x
    ensures |CheckedIds(rs)| == |CheckedIndices(rs)|
  {
    if |rs| > 0 {
      var n := |rs| - 1;
      var init := rs[..n];
      CheckedIdsAreCheckedRows(init);
      assert forall i :: 0 <= i < n ==> init[i] == rs[i];
      if rs[n].checked {
        assert CheckedIndices(rs) == CheckedIndices(init) + {n};
      } else {
        assert CheckedIndices(rs) == CheckedIndices(init);
      }
    }
  }

  lemma {:induction false} NoCheckedNoIds(rs: seq<Row>)
    requires forall i :: 0 <= i < |rs| ==> !rs[i].checked
    ensures CheckedIds(rs) == []
  {
    if |rs| > 0 {
      NoCheckedNoIds(rs[..|rs| - 1]);
    }
  }

  lemma {:induction false} OneCheckedOneId(rs: seq<Row>, k: int)
    requires 0 <= k < |rs| && rs[k].checked
    requires forall j :: 0 <= j < |rs| && j != k ==> !rs[j].checked
    ensures CheckedIds(rs) == [rs[k].id]
  {
    var n := |rs| - 1;
    if k == n {
      NoCheckedNoIds(rs[..n]);
    } else {
      OneCheckedOneId(rs[..n], k);
    }
  }

  lemma {:induction false} AllCheckedAllIds(rs: seq<Row>)
    requires forall i :: 0 <= i < |rs| ==> rs[i].checked
    ensures CheckedIds(rs) == Ids(rs)
  {
    if |rs| > 0 {
      var n := |rs| - 1;
      AllCheckedAllIds(rs[..n]);
      assert Ids(rs) == Ids(rs[..n]) + [rs[n].id];
    }
  }

  /**
   * The delete button is enabled exactly when some row is checked, the view
   * button exactly when one row and no other is checked.
   */
  lemma SelectionEnablesButtons(rs: seq<Row>)
    ensures |CheckedIds(rs)| > 0 <==> exists i :: 0 <= i < |rs| && rs[i].checked
    ensures |CheckedIds(rs)| == 1 <==>
              exists i :: 0 <= i < |rs| && rs[i].checked && forall j :: 0 <= j < |rs| && j != i ==> !rs[j].checked
  {
    CheckedIdsAreCheckedRows(rs);
    SomeCheckedIndex(rs);
    OneCheckedIndex(rs);
  }

  lemma SomeCheckedIndex(rs: seq<Row>)
    ensures |CheckedIndices(rs)| > 0 <==> exists i :: 0 <= i < |rs| && rs[i].checked
  {
    var s := CheckedIndices(rs);
    if |s| > 0 {
      var k :| k in s;
      assert rs[k].checked;
    }
    if exists i :: 0 <= i < |rs| && rs[i].checked {
      var i :| 0 <= i < |rs| && rs[i].checked;
      assert i in s;
    }
  }

  lemma OneCheckedIndex(rs: seq<Row>)
    ensures |CheckedIndices(rs)| == 1 <==>
              exists i :: 0 <= i < |rs| && rs[i].checked && forall j :: 0 <= j < |rs| && j != i ==> !rs[j].checked
  {
    var s := CheckedIndices(rs);
    if |s| == 1 {
      var k :| k in s;
      assert s - {k} == {} by { assert |s - {k}| == 0; }
      assert forall j :: 0 <= j < |rs| && j != k && rs[j].checked ==> j in s - {k};
      assert rs[k].checked;
    }
    if exists i :: 0 <= i < |rs| && rs[i].checked && forall j :: 0 <= j < |rs| && j != i ==> !rs[j].checked {
      var i :| 0 <= i < |rs| && rs[i].checked && forall j :: 0 <= j < |rs| && j != i ==> !rs[j].checked;
      assert s == {i};
    }
  }

  /** All loaded rows consist of the same number (at least one) of cells, the last being the id. */
  predicate UniformRows(data: seq<seq<Json>>) {
    |data| > 0 ==> |data[0]| > 0 && forall i :: 0 <= i < |data| ==> |data[i]| == |data[0]|
  }

  /** `item[lastIndex] = [item[lastIndex], false]` */
  function WrapRow(item: seq<Json>, lastIndex: nat): Row
    requires lastIndex < |item|
  {
    Row(item[..lastIndex], item[lastIndex], false)
  }

  /** The rows `fetchList` stores for the loaded data. */
  function WrapRows(data: seq<seq<Json>>): seq<Row>
    requires UniformRows(data)
  {
    if |data| == 0 then []
    else seq(|data|, i requires 0 <= i < |data| => WrapRow(data[i], |data[0]| - 1))
  }

  /** Every freshly loaded row starts unchecked, keeps its data cells and takes its id from its last cell; nothing is selected. */
  lemma LoadedRowsStartUnchecked(data: seq<seq<Json>>)
    requires UniformRows(data)
    ensures |WrapRows(data)| == |data|
    ensures forall i :: 0 <= i < |data| ==>
              && !WrapRows(data)[i].checked
              && WrapRows(data)[i].cells + [WrapRows(data)[i].id] == data[i]
    ensures CheckedIds(WrapRows(data)) == []
  {
    var rs := WrapRows(data);
    forall i | 0 <= i < |data| ensures rs[i].cells + [rs[i].id] == data[i] {
      assert data[i] == data[i][..|data[0]| - 1] + [data[i][|data[0]| - 1]];
    }
    NoCheckedNoIds(rs);
  }

  /**
   * Every row holds one data cell per column, so that `item[fields.length]`
   * (`componentDidUpdate`) and `item[item.length - 1]` (`toggleAllRow`,
   * `clickRow`) are the same `[id, checked]` pair.
   */
  predicate CellsFit(rs: seq<Row>, width: int) {
    forall i :: 0 <= i < |rs| ==> |rs[i].cells| == width
  }

  /** Rows loaded with one cell per column plus the id fit the columns. */
  lemma LoadedRowsFit(data: seq<seq<Json>>, width: nat)
    requires UniformRows(data) && (|data| > 0 ==> |data[0]| == width + 1)
    ensures CellsFit(WrapRows(data), width)
  {
  }

  /** Checking and unchecking rows leaves their cells alone, so they still fit the columns. */
  lemma CheckingKeepsCells(rs: seq<Row>, width: int, checked: bool, k: int)
    requires CellsFit(rs, width)
    ensures CellsFit(WithAllChecked(rs, checked), width) && CellsFit(WithOnlyChecked(rs, k), width)
    ensures 0 <= k < |rs| ==> CellsFit(WithFlipped(rs, k), width)
  {
  }

  /** The rows after `toggleAllRow` set every flag to `checked`. */
  function WithAllChecked(rs: seq<Row>, checked: bool): seq<Row> {
    seq(|rs|, i requires 0 <= i < |rs| => rs[i].(checked := checked))
  }

  /** The rows after `clickRow(k, false)`: exactly row k checked. */
  function WithOnlyChecked(rs: seq<Row>, k: int): seq<Row> {
    seq(|rs|, i requires 0 <= i < |rs| => rs[i].(checked := i == k))
  }

  /** `clickRow(k, true)`: row k's flag flipped. */
  function WithFlipped(rs: seq<Row>, k: int): seq<Row>
    requires 0 <= k < |rs|
  {
    rs[k := rs[k].(checked := !rs[k].checked)]
  }

  /** Checking all rows selects every id in row order; unchecking all selects none. */
  lemma ToggleAllSelection(rs: seq<Row>)
    ensures CheckedIds(WithAllChecked(rs, true)) == Ids(rs)
    ensures CheckedIds(WithAllChecked(rs, false)) == []
  {
    AllCheckedAllIds(WithAllChecked(rs, true));
    assert Ids(WithAllChecked(rs, true)) == Ids(rs);
    NoCheckedNoIds(WithAllChecked(rs, false));
  }

  /** A plain row click selects that row's id and nothing else, so that viewing is enabled. */
  lemma ClickSelectsOnlyThatRow(rs: seq<Row>, k: int)
    requires 0 <= k < |rs|
    ensures CheckedIds(WithOnlyChecked(rs, k)) == [rs[k].id]
  {
    OneCheckedOneId(WithOnlyChecked(rs, k), k);
  }

  /** A checkbox click adds the row to, or removes it from, the checked rows and leaves all others as they were. */
  lemma FlipChangesOneRow(rs: seq<Row>, k: int)
    requires 0 <= k < |rs|
    ensures rs[k].checked ==> CheckedIndices(WithFlipped(rs, k)) == CheckedIndices(rs) - {k}
    ensures !rs[k].checked ==> CheckedIndices(WithFlipped(rs, k)) == CheckedIndices(rs) + {k}
    ensures forall i :: 0 <= i < |rs| && i != k ==> WithFlipped(rs, k)[i] == rs[i]
  {
  }

  // ---- paging --------------------------------------------------------------------

  /** `setPageNo`: a falsy page number (absent or 0) means page 1. */
  function PageNoOrDefault(p: Option<int>): (r: int)
    ensures p.None? || p == Some(0) ==> r == 1
    ensures p.Some? && p.value != 0 ==> r == p.value
  {
    if p.None? || p == Some(0) then 1 else p.value
  }

  /** `setPageSize`: a falsy page size (absent or 0) means 20. */
  function PageSizeOrDefault(p: Option<int>): (r: int)
    ensures p.None? || p == Some(0) ==> r == 20
    ensures p.Some? && p.value != 0 ==> r == p.value
  {
    if p.None? || p == Some(0) then 20 else p.value
  }

  /** `RbListPagination.prev`: the page asked for, none on page 1. */
  function PrevTarget(pageNo: int): (r: Option<int>)
    ensures r.None? <==> pageNo == 1
    ensures r.Some? ==> r.value == pageNo - 1
  {
    if pageNo == 1 then None else Some(pageNo - 1)
  }

  /** `RbListPagination.next`: none on the last page; an unknown page total never stops it. */
  function NextTarget(pageNo: int, pageTotal: Option<int>): (r: Option<int>)
    ensures r.None? <==> pageTotal == Some(pageNo)
    ensures r.Some? ==> r.value == pageNo + 1
  {
    if pageTotal == Some(pageNo) then None else Some(pageNo + 1)
  }

  /** `RbListPagination.goto`: none for the current page. */
  function GotoTarget(pageNo: int, target: int): (r: Option<int>)
    ensures r.None? <==> target == pageNo
    ensures r.Some? ==> r.value == target
  {
    if pageNo == target then None else Some(target)
  }

  /** From a page within 1..pageTotal, prev and next ask only for pages within 1..pageTotal. */
  lemma PagingStaysInRange(pageNo: int, pageTotal: int)
    requires 1 <= pageNo <= pageTotal
    ensures PrevTarget(pageNo).Some? ==> 1 <= PrevTarget(pageNo).value <= pageTotal
    ensures NextTarget(pageNo, Some(pageTotal)).Some? ==> 1 <= NextTarget(pageNo, Some(pageTotal)).value <= pageTotal
  {
  }

  /** Going back from a page after the first and then forward returns to it. */
  lemma NextUndoesPrev(pageNo: int, pageTotal: Option<int>)
    requires pageNo != 1 && pageTotal != Some(pageNo - 1)
    ensures NextTarget(PrevTarget(pageNo).value, pageTotal) == Some(pageNo)
  {
  }

  // ---- the component -------------------------------------------------------------

  /** The body `fetchList` posts to the list endpoint. */
  datatype ListQuery = ListQuery(entity: string, fields: seq<string>, pageNo: int, pageSize: int,
                                 sort: Option<string>, filter: Option<Json>, reload: bool)

  /** The list endpoint's answer: the rows and the total, or an error message. */
  datatype ListResponse = ListData(data: seq<seq<Json>>, total: int) | ListError(message: Option<string>)

  function FieldNames(cols: seq<Column>): seq<string> {
    seq(|cols|, i requires 0 <= i < |cols| => cols[i].field)
  }

  class RbList {
    const entity: string
    var columns: array<Column>
    var rows: array<Row>
    var noData: bool
    var checkedAll: bool
    var pageNo: int
    var pageSize: int
    var rowTotal: Option<int>
    /** `__selectedRows`, absent until the first update. */
    var selectedRows: Option<seq<Json>>

    constructor (entity: string, fields: seq<Column>)
      ensures this.entity == entity && columns[..] == fields && rows.Length == 0
      ensures !noData && !checkedAll && pageNo == 1 && pageSize == 5
      ensures rowTotal.None? && selectedRows.None?
      ensures fresh(columns) && fresh(rows)
    {
      this.entity := entity;
      columns := new Column[|fields|](i requires 0 <= i < |fields| => fields[i]);
      rows := new Row[0];
      noData, checkedAll := false, false;
      pageNo, pageSize := 1, 5;
      rowTotal, selectedRows := None, None;
    }

    /** `fieldSort`: toggle the named column between ascending and descending and clear every other column. */
    method FieldSort(f: string)
      modifies columns
      ensures columns[..] == SortedBy(old(columns[..]), f)
    {
      var i := 0;
      while i < columns.Length
        invariant 0 <= i <= columns.Length
        invariant forall k :: 0 <= k < i ==> columns[k] == ToggledFor(old(columns[k]), f)
        invariant forall k :: i <= k < columns.Length ==> columns[k] == old(columns[k])
      {
        if columns[i].field == f {
          if columns[i].sort == Some(SortAsc) {
            columns[i] := columns[i].(sort := Some(SortDesc));
          } else {
            columns[i] := columns[i].(sort := Some(SortAsc));
          }
        } else {
          columns[i] := columns[i].(sort := None);
        }
        i := i + 1;
      }
    }

    /** The query part of `fetchList`: every column's field, and the token of the last sorted column. */
    method BuildListQuery(filter: Option<Json>) returns (q: ListQuery)
      ensures q.fields == FieldNames(columns[..])
      ensures q.sort == LastSortToken(columns[..])
      ensures q.entity == entity && q.pageNo == pageNo && q.pageSize == pageSize
      ensures q.filter == filter && q.reload
    {
      var fields: seq<string> := [];
      var fieldSort: Option<string> := None;
      var i := 0;
      while i < columns.Length
        invariant 0 <= i <= columns.Length
        invariant fields == FieldNames(columns[..i])
        invariant fieldSort == LastSortToken(columns[..i])
      {
        var c := columns[i];
        fields := fields + [c.field];
        if IsSorted(c) {
          fieldSort := Some(SortTokenOf(c));
        }
        i := i + 1;
        assert columns[..i][..i - 1] == columns[..i - 1];
      }
      assert columns[..columns.Length] == columns[..];
      q := ListQuery(entity, fields, pageNo, pageSize, fieldSort, filter, true);
    }

    /** The callback of `fetchList`: store the wrapped rows and the total, or leave everything as it was on an error. */
    method ApplyListResponse(resp: ListResponse)
      requires resp.ListData? ==> UniformRows(resp.data) && (|resp.data| > 0 ==> |resp.data[0]| == columns.Length + 1)
      modifies this
      ensures columns == old(columns) && checkedAll == old(checkedAll) && selectedRows == old(selectedRows)
      ensures pageNo == old(pageNo) && pageSize == old(pageSize)
      ensures resp.ListError? ==> rows == old(rows) && noData == old(noData) && rowTotal == old(rowTotal)
      ensures resp.ListData? ==>
                && fresh(rows) && rows[..] == WrapRows(resp.data)
                && noData == (old(noData) || |resp.data| == 0)
                && rowTotal == Some(resp.total)
                && CellsFit(rows[..], columns.Length)
    {
      match resp
      case ListError(_) =>
      case ListData(data, total) =>
        var loaded := new Row[|data|];
        if |data| == 0 {
          noData := true;
        } else {
          var lastIndex := |data[0]| - 1;
          var i := 0;
          while i < |data|
            invariant 0 <= i <= |data|
            invariant forall k :: 0 <= k < i ==> loaded[k] == WrapRow(data[k], lastIndex)
            modifies loaded
          {
            loaded[i] := WrapRow(data[i], lastIndex);
            i := i + 1;
          }
        }
        rows := loaded;
        rowTotal := Some(total);
        LoadedRowsFit(data, columns.Length);
    }

    /** `toggleAllRow`: flip `checkedAll` and give every row that flag. */
    method ToggleAllRow()
      modifies this, rows
      ensures checkedAll == !old(checkedAll)
      ensures rows == old(rows) && rows[..] == WithAllChecked(old(rows[..]), checkedAll)
      ensures columns == old(columns) && noData == old(noData) && selectedRows == old(selectedRows)
      ensures pageNo == old(pageNo) && pageSize == old(pageSize) && rowTotal == old(rowTotal)
    {
      var checked := !checkedAll;
      var i := 0;
      while i < rows.Length
        invariant 0 <= i <= rows.Length
        invariant forall k :: 0 <= k < i ==> rows[k] == old(rows[k]).(checked := checked)
        modifies rows
        invariant forall k :: i <= k < rows.Length ==> rows[k] == old(rows[k])
      {
        rows[i] := rows[i].(checked := checked);
        i := i + 1;
      }
      checkedAll := checked;
    }

    /**
     * `clickRow(rowIndex, holdOthers)`. A click on the checkbox's label span
     * changes nothing; a checkbox click flips that row only; a click elsewhere
     * on the row leaves exactly that row checked.
     */
    method ClickRow(rowIndex: int, holdOthers: bool, onLabelSpan: bool)
      requires 0 <= rowIndex < rows.Length
      modifies rows
      ensures onLabelSpan ==> rows[..] == old(rows[..])
      ensures !onLabelSpan && holdOthers ==> rows[..] == WithFlipped(old(rows[..]), rowIndex)
      ensures !onLabelSpan && !holdOthers ==> rows[..] == WithOnlyChecked(old(rows[..]), rowIndex)
    {
      if onLabelSpan {
        return;
      }
      if holdOthers {
        rows[rowIndex] := rows[rowIndex].(checked := !rows[rowIndex].checked);
      } else {
        var i := 0;
        while i < rows.Length
          invariant 0 <= i <= rows.Length
          invariant forall k :: 0 <= k < i ==> rows[k] == old(rows[k]).(checked := k == rowIndex)
          invariant forall k :: i <= k < rows.Length ==> rows[k] == old(rows[k])
        {
          rows[i] := rows[i].(checked := i == rowIndex);
          i := i + 1;
        }
      }
    }

    /** The ids of the checked rows, in row order. */
    method SelectedRows() returns (ids: seq<Json>)
      ensures ids == CheckedIds(rows[..])
    {
      ids := [];
      var i := 0;
      while i < rows.Length
        invariant 0 <= i <= rows.Length
        invariant ids == CheckedIds(rows[..i])
      {
        if rows[i].checked {
          ids := ids + [rows[i].id];
        }
        i := i + 1;
        assert rows[..i][..i - 1] == rows[..i - 1];
      }
      assert rows[..rows.Length] == rows[..];
    }

    /**
     * `componentDidUpdate`: record the selection and say which of delete and
     * view are enabled. It reads each row's pair at index `fields.length`,
     * which is the id pair of rows that fit the columns.
     */
    method ComponentDidUpdate() returns (deleteEnabled: bool, viewEnabled: bool)
      requires CellsFit(rows[..], columns.Length)
      modifies this`selectedRows
      ensures selectedRows == Some(CheckedIds(rows[..]))
      ensures deleteEnabled <==> |CheckedIds(rows[..])| > 0
      ensures viewEnabled <==> |CheckedIds(rows[..])| == 1
    {
      var ids := SelectedRows();
      deleteEnabled := |ids| > 0;
      viewEnabled := |ids| == 1;
      selectedRows := Some(ids);
    }

    /** `setPageNo`. The list is then fetched again. */
    method SetPageNo(p: Option<int>)
      modifies this`pageNo
      ensures pageNo == PageNoOrDefault(p)
    {
      pageNo := if p.None? || p == Some(0) then 1 else p.value;
    }

    /** `setPageSize`: back to page 1. The list is then fetched again. */
    method SetPageSize(p: Option<int>)
      modifies this`pageNo, this`pageSize
      ensures pageNo == 1 && pageSize == PageSizeOrDefault(p)
    {
      pageNo := 1;
      pageSize := if p.None? || p == Some(0) then 20 else p.value;
    }
  }

  /** The paging bar; its page number is the list's, its page total what it last rendered. */
  class RbListPagination {
    const parent: RbList
    var pageTotal: Option<int>

    constructor (parent: RbList, pageTotal: Option<int>)
      ensures this.parent == parent && this.pageTotal == pageTotal
    {
      this.parent := parent;
      this.pageTotal := pageTotal;
    }

    method Prev()
      modifies parent`pageNo
      ensures PrevTarget(old(parent.pageNo)).None? ==> parent.pageNo == old(parent.pageNo)
      ensures PrevTarget(old(parent.pageNo)).Some? ==> parent.pageNo == PageNoOrDefault(PrevTarget(old(parent.pageNo)))
    {
      var target := PrevTarget(parent.pageNo);
      if target.Some? {
        parent.SetPageNo(target);
      }
    }

    method Next()
      modifies parent`pageNo
      ensures NextTarget(old(parent.pageNo), pageTotal).None? ==> parent.pageNo == old(parent.pageNo)
      ensures NextTarget(old(parent.pageNo), pageTotal).Some? ==>
                parent.pageNo == PageNoOrDefault(NextTarget(old(parent.pageNo), pageTotal))
    {
      var target := NextTarget(parent.pageNo, pageTotal);
      if target.Some? {
        parent.SetPageNo(target);
      }
    }

    method Goto(p: int)
      modifies parent`pageNo
      ensures p == old(parent.pageNo) ==> parent.pageNo == old(parent.pageNo)
      ensures p != old(parent.pageNo) ==> parent.pageNo == PageNoOrDefault(Some(p))
    {
      var target := GotoTarget(parent.pageNo, p);
      if target.Some? {
        parent.SetPageNo(target);
      }
    }
  }
}
