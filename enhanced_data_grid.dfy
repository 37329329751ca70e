/** EnhancedDataGrid: the record grid's filtered and sorted view, its row
  * selection, the select-all box and the CSV export. Rows are JavaScript
  * objects; the selection holds the ids of the selected rows, whatever
  * their type. */
module EnhancedDataGrid {
  import opened Basics
  import opened Text
  import opened JsValues
  import opened Sorting
  import opened Identified
  import opened FileParser

  /** A column definition: the row property it shows and its heading. */
  datatype Column = Column(field: string, header: string)

  /** The fields of the columns, in order. */
  function Fields(columns: seq<Column>): (r: set<string>)
    ensures forall f :: f in r <==> exists k :: 0 <= k < |columns| && columns[k].field == f
  {
    set k | 0 <= k < |columns| :: columns[k].field
  }

  // ---------------------------------------------------------------------
  // Search

  /** A cell matches a lower-cased needle when it is neither null nor
    * undefined and its lower-cased text contains the needle. */
  predicate CellMatches(v: JsValue, needle: string) {
    !IsNullish(v) && Contains(Lower(ToStr(v)), needle)
  }

  /** The search filter's test: an empty term keeps everything, otherwise
    * some column's value must match. */
  predicate RowMatches(row: JsValue, columns: seq<Column>, term: string) {
    term == [] || exists k :: 0 <= k < |columns| && CellMatches(Prop(row, columns[k].field), Lower(term))
  }

  function SearchFilter(data: seq<JsValue>, columns: seq<Column>, term: string): (r: seq<JsValue>)
    ensures |r| <= |data|
    ensures forall x :: x in r <==> x in data && RowMatches(x, columns, term)
  {
    if data == [] then []
    else
      var rest := SearchFilter(data[1..], columns, term);
      assert forall x :: x in data <==> x == data[0] || x in data[1..];
      if RowMatches(data[0], columns, term) then [data[0]] + rest else rest
  }

  /** On one row the filter keeps it exactly when it matches. */
  lemma SearchFilterSingle(row: JsValue, columns: seq<Column>, term: string)
    ensures SearchFilter([row], columns, term) == (if RowMatches(row, columns, term) then [row] else [])
  {
    assert [row][1..] == [];
  }

  /** The filter distributes over concatenation, so the kept rows stay in
    * the data's order, each as often as it occurs. */
  lemma {:induction false} SearchFilterConcat(a: seq<JsValue>, b: seq<JsValue>, columns: seq<Column>, term: string)
    ensures SearchFilter(a + b, columns, term) == SearchFilter(a, columns, term) + SearchFilter(b, columns, term)
    decreases |a|
  {
    if a == [] {
      assert a + b == b;
    } else {
      var ab := a + b;
      assert ab[1..] == a[1..] + b && ab[0] == a[0];
      SearchFilterConcat(a[1..], b, columns, term);
    }
  }

  /** With no search term the filter keeps the data as it is. */
  lemma {:induction false} EmptySearchKeepsAll(data: seq<JsValue>, columns: seq<Column>)
    ensures SearchFilter(data, columns, []) == data
    decreases |data|
  {
    if data != [] {
      EmptySearchKeepsAll(data[1..], columns);
      assert data == [data[0]] + data[1..];
    }
  }

  /** A value that is null or undefined in every column never matches a
    * non-empty term, whatever it is. */
  lemma NullRowNeverMatches(row: JsValue, columns: seq<Column>, term: string)
    requires term != []
    requires forall k :: 0 <= k < |columns| ==> IsNullish(Prop(row, columns[k].field))
    ensures !RowMatches(row, columns, term)
  {}

  // ---------------------------------------------------------------------
  // Sorting

  /** `row[field]` is neither null nor undefined. */
  predicate HasKey(row: JsValue, field: string) {
    !IsNullish(Prop(row, field))
  }

  /** The rows with (`keyed`) or without a sort key, in their order. */
  function KeepKeyed(rows: seq<JsValue>, field: string, keyed: bool): (r: seq<JsValue>)
    ensures |r| <= |rows|
    ensures forall x :: x in r <==> x in rows && HasKey(x, field) == keyed
  {
    if rows == [] then []
    else
      var rest := KeepKeyed(rows[1..], field, keyed);
      assert forall x :: x in rows <==> x == rows[0] || x in rows[1..];
      if HasKey(rows[0], field) == keyed then [rows[0]] + rest else rest
  }

  /** The two parts together are the rows again. */
  lemma {:induction false} KeepKeyedSplits(rows: seq<JsValue>, field: string)
    ensures multiset(KeepKeyed(rows, field, true)) + multiset(KeepKeyed(rows, field, false)) == multiset(rows)
    decreases |rows|
  {
    if rows != [] {
      var x := rows[0];
      KeepKeyedSplits(rows[1..], field);
      assert rows == [x] + rows[1..];
      assert multiset(rows) == multiset{x} + multiset(rows[1..]);
      var t, f := KeepKeyed(rows[1..], field, true), KeepKeyed(rows[1..], field, false);
      if HasKey(x, field) {
        assert KeepKeyed(rows, field, true) == [x] + t && KeepKeyed(rows, field, false) == f;
        assert multiset([x] + t) == multiset{x} + multiset(t);
      } else {
        assert KeepKeyed(rows, field, true) == t && KeepKeyed(rows, field, false) == [x] + f;
        assert multiset([x] + f) == multiset{x} + multiset(f);
      }
    }
  }

  /** Two keys: numbers by their difference, anything else by the strings'
    * code-unit order. */
  function CompareValues(x: JsValue, y: JsValue): int {
    if x.Num? && y.Num? then (if x.n < y.n then -1 else if x.n > y.n then 1 else 0)
    else CompareStrings(ToStr(x), ToStr(y))
  }

  /** The comparator on two keyed rows, negated for descending order. */
  function KeyedComparator(field: string, dir: Direction): (JsValue, JsValue) -> int {
    (a: JsValue, b: JsValue) =>
      var c := CompareValues(Prop(a, field), Prop(b, field));
      if dir == Asc then c else -c
  }

  /** The sorted rows: the keyed rows in comparator order, then the rows
    * whose key is null or undefined in their original order. */
  function GridSort(rows: seq<JsValue>, field: string, dir: Direction): seq<JsValue> {
    SortBy(KeepKeyed(rows, field, true), KeyedComparator(field, dir)) + KeepKeyed(rows, field, false)
  }

  /** Any rearrangement of the keyed rows followed by the rest permutes the
    * rows and puts every row without a key after every row with one. */
  lemma KeyedThenRest(rows: seq<JsValue>, field: string, sorted: seq<JsValue>)
    requires multiset(sorted) == multiset(KeepKeyed(rows, field, true))
    ensures var r := sorted + KeepKeyed(rows, field, false);
      |r| == |rows| && multiset(r) == multiset(rows) &&
      forall i :: 0 <= i < |r| ==> (HasKey(r[i], field) <==> i < |KeepKeyed(rows, field, true)|)
  {
    var keyed := KeepKeyed(rows, field, true);
    var rest := KeepKeyed(rows, field, false);
    var r := sorted + rest;
    KeepKeyedSplits(rows, field);
    assert |r| == |multiset(r)|;
    assert |sorted| == |multiset(sorted)| == |keyed|;
    forall i | 0 <= i < |r| ensures HasKey(r[i], field) <==> i < |keyed| {
      if i < |keyed| {
        assert r[i] == sorted[i];
        assert r[i] in multiset(keyed);
      } else {
        assert r[i] == rest[i - |keyed|];
      }
    }
  }

  /** Sorting permutes the rows and puts every row without a key after every
    * row with one, in either direction. */
  lemma GridSortNullsLast(rows: seq<JsValue>, field: string, dir: Direction)
    ensures var r := GridSort(rows, field, dir);
      |r| == |rows| && multiset(r) == multiset(rows) &&
      forall i :: 0 <= i < |r| ==> (HasKey(r[i], field) <==> i < |KeepKeyed(rows, field, true)|)
  {
    var sorted := SortBy(KeepKeyed(rows, field, true), KeyedComparator(field, dir));
    KeyedThenRest(rows, field, sorted);
  }

  /** Every key is a number, or every key is a string. */
  predicate UniformKeys(rows: seq<JsValue>, field: string) {
    (forall a :: a in rows ==> Prop(a, field).Num?) || (forall a :: a in rows ==> Prop(a, field).Str?)
  }

  lemma KeyedComparatorConsistent(rows: seq<JsValue>, field: string, dir: Direction)
    requires UniformKeys(rows, field)
    ensures Consistent(KeyedComparator(field, dir), rows)
  {
    var cmp := KeyedComparator(field, dir);
    if !(forall a :: a in rows ==> Prop(a, field).Num?) {
      forall a, b | a in rows && b in rows ensures cmp(a, b) > 0 <==> cmp(b, a) < 0 {
        CompareStringsAntisymmetric(ToStr(Prop(a, field)), ToStr(Prop(b, field)));
      }
      forall a, b, c | a in rows && b in rows && c in rows && cmp(a, b) <= 0 && cmp(b, c) <= 0
        ensures cmp(a, c) <= 0
      {
        var x, y, z := ToStr(Prop(a, field)), ToStr(Prop(b, field)), ToStr(Prop(c, field));
        if dir == Asc {
          CompareStringsTransitive(x, y, z);
        } else {
          CompareStringsAntisymmetric(x, y);
          CompareStringsAntisymmetric(y, z);
          CompareStringsAntisymmetric(x, z);
          CompareStringsTransitive(z, y, x);
        }
      }
    }
  }

  /** When the keys are all numbers or all strings, the keyed part comes out
    * in comparator order. */
  lemma GridSortSorted(rows: seq<JsValue>, field: string, dir: Direction)
    requires UniformKeys(KeepKeyed(rows, field, true), field)
    ensures Sorted(GridSort(rows, field, dir)[..|KeepKeyed(rows, field, true)|], KeyedComparator(field, dir))
  {
    var keyed := KeepKeyed(rows, field, true);
    KeyedComparatorConsistent(keyed, field, dir);
    SortBySorted(keyed, KeyedComparator(field, dir));
    assert GridSort(rows, field, dir)[..|keyed|] == SortBy(keyed, KeyedComparator(field, dir));
  }

  /** The filtered view: the matching rows, sorted when a sort field is set. */
  function View(data: seq<JsValue>, columns: seq<Column>, term: string,
                sortField: Option<string>, dir: Direction): seq<JsValue>
  {
    var kept := SearchFilter(data, columns, term);
    if sortField.Some? && sortField.value != [] then GridSort(kept, sortField.value, dir) else kept
  }

  /** The view holds exactly the matching rows, as often as the data does. */
  lemma ViewContents(data: seq<JsValue>, columns: seq<Column>, term: string,
                     sortField: Option<string>, dir: Direction)
    ensures multiset(View(data, columns, term, sortField, dir)) == multiset(SearchFilter(data, columns, term))
    ensures forall x :: x in View(data, columns, term, sortField, dir) <==> x in data && RowMatches(x, columns, term)
  {
    var v := View(data, columns, term, sortField, dir);
    var kept := SearchFilter(data, columns, term);
    if sortField.Some? && sortField.value != [] {
      GridSortNullsLast(kept, sortField.value, dir);
    }
    forall x ensures x in v <==> x in kept {
      assert x in v <==> x in multiset(v);
      assert x in kept <==> x in multiset(kept);
    }
  }

  // ---------------------------------------------------------------------
  // Selection

  /** `selectedRows.has(row.id)`: the row's id, whatever its type, is in
    * the selection. */
  predicate IsSelected(row: JsValue, selected: set<JsValue>) {
    IdOf(row) in selected
  }

  /** The ids `forEach(row => selectedRows.add(row.id))` adds. */
  function RowIds(rows: seq<JsValue>): (r: set<JsValue>)
    ensures forall k :: 0 <= k < |rows| ==> IdOf(rows[k]) in r
    ensures forall y :: y in r ==> exists k :: 0 <= k < |rows| && IdOf(rows[k]) == y
  {
    if rows == [] then {}
    else
      var rest := RowIds(rows[1..]);
      assert forall k :: 1 <= k < |rows| ==> rows[k] == rows[1..][k - 1];
      {IdOf(rows[0])} + rest
  }

  /** `data.filter(row => selectedRows.has(row.id))`. */
  function SelectedRows(data: seq<JsValue>, selected: set<JsValue>): (r: seq<JsValue>)
    ensures |r| <= |data|
    ensures forall x :: x in r <==> x in data && IsSelected(x, selected)
  {
    if data == [] then []
    else
      var rest := SelectedRows(data[1..], selected);
      assert forall x :: x in data <==> x == data[0] || x in data[1..];
      if IsSelected(data[0], selected) then [data[0]] + rest else rest
  }

  /** The selected rows keep the data's order: selecting distributes over
    * concatenation. */
  lemma {:induction false} SelectedRowsConcat(a: seq<JsValue>, b: seq<JsValue>, selected: set<JsValue>)
    ensures SelectedRows(a + b, selected) == SelectedRows(a, selected) + SelectedRows(b, selected)
    decreases |a|
  {
    if a == [] {
      assert a + b == b;
    } else {
      assert (a + b)[1..] == a[1..] + b;
      SelectedRowsConcat(a[1..], b, selected);
    }
  }

  /** The header box: checked and indeterminate. */
  datatype CheckboxState = CheckboxState(checked: bool, indeterminate: bool)

  /** The header box as the grid computes it, from the two counts. */
  function CountedCheckbox(selectedCount: nat, total: nat): (s: CheckboxState)
    ensures !(s.checked && s.indeterminate)
    ensures selectedCount == 0 ==> !s.checked && !s.indeterminate
  {
    CheckboxState(selectedCount == total && total > 0, selectedCount > 0 && selectedCount < total)
  }

  /** The count comparison reads a selection hidden by the search as a full
    * one: one visible row, not selected, and one hidden selected row show a
    * checked box. */
  lemma CountedCheckboxHiddenSelection()
    ensures var row := Obj([("id", Num(1.0, "1"))]);
      var selected := {Num(2.0, "2")};
      !IsSelected(row, selected) && CountedCheckbox(|selected|, |[row]|).checked
  {
    var row := Obj([("id", Num(1.0, "1"))]);
    assert IdOf(row) == Num(1.0, "1");
  }

  /** The header box from the visible rows themselves: checked when every
    * visible row is selected, indeterminate when some but not all are. */
  function HeaderCheckbox(selected: set<JsValue>, filtered: seq<JsValue>): (s: CheckboxState)
    ensures s.checked <==> |filtered| > 0 && forall k :: 0 <= k < |filtered| ==> IsSelected(filtered[k], selected)
    ensures s.indeterminate <==>
      (exists k :: 0 <= k < |filtered| && IsSelected(filtered[k], selected)) &&
      (exists k :: 0 <= k < |filtered| && !IsSelected(filtered[k], selected))
    ensures !(s.checked && s.indeterminate)
  {
    var all := forall k :: 0 <= k < |filtered| ==> IsSelected(filtered[k], selected);
    var some := exists k :: 0 <= k < |filtered| && IsSelected(filtered[k], selected);
    CheckboxState(|filtered| > 0 && all, some && !all)
  }

  /** Checking the header box selects every visible row, and the box then
    * shows checked; unchecking it leaves nothing selected. */
  lemma SelectAllShowsChecked(selected: set<JsValue>, filtered: seq<JsValue>)
    requires |filtered| > 0
    ensures HeaderCheckbox(selected + RowIds(filtered), filtered) == CheckboxState(true, false)
    ensures HeaderCheckbox({}, filtered) == CheckboxState(false, false)
  {
    assert IdOf(filtered[0]) in RowIds(filtered);
  }

  /** No two visible rows share an id. */
  predicate DistinctIds(rows: seq<JsValue>) {
    forall i, j :: 0 <= i < j < |rows| ==> IdOf(rows[i]) != IdOf(rows[j])
  }

  lemma {:induction false} RowIdsCount(rows: seq<JsValue>)
    requires DistinctIds(rows)
    ensures |RowIds(rows)| == |rows|
    decreases |rows|
  {
    if rows != [] {
      var tail := rows[1..];
      assert DistinctIds(tail) by {
        forall i, j | 0 <= i < j < |tail| ensures IdOf(tail[i]) != IdOf(tail[j]) {
          assert tail[i] == rows[i + 1] && tail[j] == rows[j + 1];
        }
      }
      RowIdsCount(tail);
      var x := IdOf(rows[0]);
      assert x !in RowIds(tail);
    }
  }

  /** A subset is as large as its superset only when it is all of it. */
  lemma SubsetSize<T>(a: set<T>, b: set<T>)
    requires a <= b
    ensures |a| <= |b| && (|a| == |b| <==> a == b)
  {
    assert |b - a| == |b| - |a|;
    if a != b {
      assert b - a != {};
    }
  }

  /** With the selection inside the visible ids, every visible row is
    * selected exactly when the selection is all of them. */
  lemma AllSelectedIff(selected: set<JsValue>, filtered: seq<JsValue>)
    requires DistinctIds(filtered) && selected <= RowIds(filtered)
    ensures (forall k :: 0 <= k < |filtered| ==> IsSelected(filtered[k], selected)) <==> selected == RowIds(filtered)
  {
    if forall k :: 0 <= k < |filtered| ==> IsSelected(filtered[k], selected) {
      forall y | y in RowIds(filtered) ensures y in selected {
        var k :| 0 <= k < |filtered| && IdOf(filtered[k]) == y;
        assert IsSelected(filtered[k], selected);
      }
    }
  }

  /** ... and some visible row is selected exactly when the selection is not
    * empty. */
  lemma SomeSelectedIff(selected: set<JsValue>, filtered: seq<JsValue>)
    requires DistinctIds(filtered) && selected <= RowIds(filtered)
    ensures (exists k :: 0 <= k < |filtered| && IsSelected(filtered[k], selected)) <==> |selected| > 0
  {
    if |selected| > 0 {
      var y :| y in selected;
      var k :| 0 <= k < |filtered| && IdOf(filtered[k]) == y;
      assert IsSelected(filtered[k], selected);
    }
  }

  /** The count comparison is right whenever the selection holds only ids of
    * visible rows and those ids are distinct numbers. */
  lemma CountedCheckboxAgrees(selected: set<JsValue>, filtered: seq<JsValue>)
    requires DistinctIds(filtered) && selected <= RowIds(filtered)
    ensures CountedCheckbox(|selected|, |filtered|) == HeaderCheckbox(selected, filtered)
  {
    RowIdsCount(filtered);
    AllSelectedIff(selected, filtered);
    SomeSelectedIff(selected, filtered);
    SubsetSize(selected, RowIds(filtered));
    var h := HeaderCheckbox(selected, filtered);
    var c := CountedCheckbox(|selected|, |filtered|);
    assert h.checked == c.checked;
    assert h.indeterminate == c.indeterminate;
  }

  // ---------------------------------------------------------------------
  // Export

  /** A cell's text: '' for null or undefined, `String(value)` otherwise. */
  function CellText(v: JsValue): (r: string)
    ensures IsNullish(v) ==> r == []
  {
    if IsNullish(v) then [] else ToStr(v)
  }

  /** Each cell quoted, inner quotes doubled. */
  function QuoteAll(cells: seq<string>): (r: seq<string>)
    ensures |r| == |cells|
    ensures forall k :: 0 <= k < |r| ==> r[k] == Quote(cells[k], '"')
  {
    if cells == [] then [] else [Quote(cells[0], '"')] + QuoteAll(cells[1..])
  }

  /** One line of the export. */
  function ExportLine(cells: seq<string>): string {
    Join(QuoteAll(cells), ',')
  }

  /** A line of the export reads back, through the comma parser without
    * trimming, as the cells it was written from. */
  lemma ExportLineReadsBack(cells: seq<string>)
    requires |cells| >= 1
    ensures CsvFields(ExportLine(cells), ',', false) == cells
  {
    var parts := QuoteAll(cells);
    ReadEncodedCells(parts, cells, [], ',', false);
    MapFieldKeep(cells);
  }

  /** The shown columns, in column order. */
  function VisibleColumns(columns: seq<Column>, visible: set<string>): (r: seq<Column>)
    ensures |r| <= |columns|
    ensures forall c :: c in r <==> c in columns && c.field in visible
  {
    if columns == [] then []
    else
      var rest := VisibleColumns(columns[1..], visible);
      assert forall c :: c in columns <==> c == columns[0] || c in columns[1..];
      if columns[0].field in visible then [columns[0]] + rest else rest
  }

  function Headers(columns: seq<Column>): (r: seq<string>)
    ensures |r| == |columns| && forall k :: 0 <= k < |r| ==> r[k] == columns[k].header
  {
    if columns == [] then [] else [columns[0].header] + Headers(columns[1..])
  }

  function RowCells(row: JsValue, columns: seq<Column>): (r: seq<string>)
    ensures |r| == |columns| && forall k :: 0 <= k < |r| ==> r[k] == CellText(Prop(row, columns[k].field))
  {
    if columns == [] then [] else [CellText(Prop(row, columns[0].field))] + RowCells(row, columns[1..])
  }

  /** The lines: the headers, then one line per row. */
  function ExportLines(rows: seq<JsValue>, columns: seq<Column>): (r: seq<string>)
    ensures |r| == |rows| + 1
    ensures r[0] == ExportLine(Headers(columns))
    ensures forall k :: 0 <= k < |rows| ==> r[k + 1] == ExportLine(RowCells(rows[k], columns))
  {
    [ExportLine(Headers(columns))] + RowLines(rows, columns)
  }

  function RowLines(rows: seq<JsValue>, columns: seq<Column>): (r: seq<string>)
    ensures |r| == |rows| && forall k :: 0 <= k < |rows| ==> r[k] == ExportLine(RowCells(rows[k], columns))
  {
    if rows == [] then [] else [ExportLine(RowCells(rows[0], columns))] + RowLines(rows[1..], columns)
  }

  /** The export: all visible rows, or the selected rows of the whole data
    * when `selectedOnly`, which fails when none is selected. */
  function Export(data: seq<JsValue>, filtered: seq<JsValue>, selected: set<JsValue>,
                  columns: seq<Column>, visible: set<string>, selectedOnly: bool): (r: Result<string, string>)
    ensures r.Err? <==> selectedOnly && SelectedRows(data, selected) == []
    ensures r.Ok? ==> r.value == Join(ExportLines(if selectedOnly then SelectedRows(data, selected) else filtered,
                                                  VisibleColumns(columns, visible)), '\n')
  {
    var rows := if selectedOnly then SelectedRows(data, selected) else filtered;
    if selectedOnly && rows == [] then Err("No records selected for export")
    else Ok(Join(ExportLines(rows, VisibleColumns(columns, visible)), '\n'))
  }

  /** Every row line of the export, when some column is shown, reads back as
    * the row's cell texts. */
  lemma ExportRowReadsBack(rows: seq<JsValue>, columns: seq<Column>, k: nat)
    requires k < |rows| && |columns| >= 1
    ensures CsvFields(ExportLines(rows, columns)[k + 1], ',', false) == RowCells(rows[k], columns)
  {
    ExportLineReadsBack(RowCells(rows[k], columns));
  }

  /** The download name: the entity name (or 'export'), 'selected_' for a
    * selected-only export, and the date part of the ISO timestamp. */
  function ExportFileName(entityName: JsValue, selectedOnly: bool, isoTimestamp: string): (r: string)
    ensures |r| >= 5 && r[|r| - 4..] == ".csv"
  {
    var date := Split(isoTimestamp, 'T')[0];
    ToStr(Or(entityName, Str("export"))) + "_" + (if selectedOnly then "selected_" else "") + date + ".csv"
  }

  // ---------------------------------------------------------------------
  // The grid

  class Grid {
    const columns: seq<Column>
    var data: seq<JsValue>
    var filteredData: seq<JsValue>
    var selected: set<JsValue>
    var sortField: Option<string>
    var direction: Direction
    var searchTerm: string
    var visible: set<string>

    /** A new grid shows every column and holds no data. */
    constructor(columns: seq<Column>)
      ensures this.columns == columns && data == [] && filteredData == [] && selected == {}
      ensures sortField == None && direction == Asc && searchTerm == [] && visible == Fields(columns)
    {
      this.columns := columns;
      data := [];
      filteredData := [];
      selected := {};
      sortField := None;
      direction := Asc;
      searchTerm := [];
      visible := Fields(columns);
    }

    /** applyFiltersAndSort. */
    method ApplyFiltersAndSort()
      modifies this
      ensures filteredData == View(data, columns, searchTerm, sortField, direction)
      ensures data == old(data) && selected == old(selected) && sortField == old(sortField)
      ensures direction == old(direction) && searchTerm == old(searchTerm) && visible == old(visible)
    {
      filteredData := SearchFilter(data, columns, searchTerm);
      if sortField.Some? && sortField.value != [] {
        filteredData := GridSort(filteredData, sortField.value, direction);
      }
    }

    /** setData: new rows, an empty selection and a fresh view. */
    method SetData(rows: seq<JsValue>)
      modifies this
      ensures data == rows && selected == {}
      ensures filteredData == View(rows, columns, searchTerm, sortField, direction)
      ensures sortField == old(sortField) && direction == old(direction)
      ensures searchTerm == old(searchTerm) && visible == old(visible)
    {
      data := rows;
      filteredData := rows;
      selected := {};
      ApplyFiltersAndSort();
    }

    /** The search box's input: the selection is kept. */
    method Search(term: string)
      modifies this
      ensures searchTerm == term
      ensures filteredData == View(data, columns, term, sortField, direction)
      ensures data == old(data) && selected == old(selected) && sortField == old(sortField)
      ensures direction == old(direction) && visible == old(visible)
    {
      searchTerm := term;
      ApplyFiltersAndSort();
    }

    /** sort: the same field flips the direction, another one sorts it
      * ascending. */
    method Sort(field: string)
      modifies this
      ensures old(sortField) == Some(field) ==> sortField == Some(field) && direction == Flip(old(direction))
      ensures old(sortField) != Some(field) ==> sortField == Some(field) && direction == Asc
      ensures filteredData == View(data, columns, searchTerm, sortField, direction)
      ensures data == old(data) && selected == old(selected)
      ensures searchTerm == old(searchTerm) && visible == old(visible)
    {
      if sortField == Some(field) {
        direction := Flip(direction);
      } else {
        sortField := Some(field);
        direction := Asc;
      }
      ApplyFiltersAndSort();
    }

    /** A column's checkbox in the column menu. */
    method SetColumnVisible(field: string, show: bool)
      modifies this
      ensures visible == if show then old(visible) + {field} else old(visible) - {field}
      ensures data == old(data) && filteredData == old(filteredData) && selected == old(selected)
      ensures sortField == old(sortField) && direction == old(direction) && searchTerm == old(searchTerm)
    {
      if show {
        visible := visible + {field};
      } else {
        visible := visible - {field};
      }
    }

    /** A row's checkbox: `id` is what parseInt reads from its data-id. */
    method ToggleRow(id: JsValue, checked: bool)
      modifies this
      ensures selected == if checked then old(selected) + {id} else old(selected) - {id}
      ensures data == old(data) && filteredData == old(filteredData) && visible == old(visible)
      ensures sortField == old(sortField) && direction == old(direction) && searchTerm == old(searchTerm)
    {
      if checked {
        selected := selected + {id};
      } else {
        selected := selected - {id};
      }
    }

    /** The header box: checking adds every visible row's id, unchecking
      * empties the whole selection, hidden rows included. */
    method SelectAllChanged(checked: bool)
      modifies this
      ensures selected == if checked then old(selected) + RowIds(filteredData) else {}
      ensures data == old(data) && filteredData == old(filteredData) && visible == old(visible)
      ensures sortField == old(sortField) && direction == old(direction) && searchTerm == old(searchTerm)
    {
      if checked {
        selected := selected + RowIds(filteredData);
      } else {
        selected := {};
      }
    }

    /** updateSelectionInfo: the two counts and the header box. */
    method SelectionInfo() returns (selectedCount: nat, totalCount: nat, box: CheckboxState)
      ensures selectedCount == |selected| && totalCount == |filteredData|
      ensures box.checked <==>
        |filteredData| > 0 && forall k :: 0 <= k < |filteredData| ==> IsSelected(filteredData[k], selected)
      ensures box.indeterminate <==>
        (exists k :: 0 <= k < |filteredData| && IsSelected(filteredData[k], selected)) &&
        (exists k :: 0 <= k < |filteredData| && !IsSelected(filteredData[k], selected))
      ensures !(box.checked && box.indeterminate)
      ensures box == HeaderCheckbox(selected, filteredData)
    {
      selectedCount := |selected|;
      totalCount := |filteredData|;
      box := HeaderCheckbox(selected, filteredData);
    }

    /** getSelectedData. */
    method GetSelectedData() returns (rows: seq<JsValue>)
      ensures forall x :: x in rows <==> x in data && IsSelected(x, selected)
      ensures rows == SelectedRows(data, selected)
    {
      rows := SelectedRows(data, selected);
    }

    /** exportToExcel: the CSV text handed to the download, or the alert. */
    method ExportToExcel(selectedOnly: bool) returns (r: Result<string, string>)
      ensures r.Err? <==> selectedOnly && SelectedRows(data, selected) == []
      ensures r == Export(data, filteredData, selected, columns, visible, selectedOnly)
    {
      r := Export(data, filteredData, selected, columns, visible, selectedOnly);
    }
  }
}
