/** PowerAppsFramework: the generic list/form view's data side: filtering
  * by search term and exact-match filters, column sorting, pagination, id
  * generation, deletion, form sections and cell truncation. */
module PowerApps {
  import opened Basics
  import opened Text
  import opened JsValues
  import opened Sorting

  /** A configured field: its property name, form section (empty when not
    * given) and whether it takes part in search (`searchable !== false`). */
  datatype Field = Field(name: string, section: string, searchable: bool)

  // ---------------------------------------------------------------------
  // Pagination
  // ---------------------------------------------------------------------

  /** `filtered.slice(offset, offset + size)`. */
  function Window<T>(filtered: seq<T>, offset: nat, size: nat): (r: seq<T>)
    ensures |r| <= size
    ensures offset < |filtered| ==>
      |r| == Min(size, |filtered| - offset) && forall k :: 0 <= k < |r| ==> r[k] == filtered[offset + k]
    ensures offset >= |filtered| ==> r == []
  {
    if offset < |filtered| then filtered[offset..Min(offset + size, |filtered|)] else []
  }

  /** getPageData: `filtered.slice((page-1)*size, (page-1)*size + size)`. */
  function PageData<T>(filtered: seq<T>, page: nat, size: nat): (r: seq<T>)
    requires page >= 1
    ensures |r| <= size
    ensures var start := (page - 1) * size;
      start < |filtered| ==>
        |r| == Min(size, |filtered| - start) && forall k :: 0 <= k < |r| ==> r[k] == filtered[start + k]
    ensures (page - 1) * size >= |filtered| ==> r == []
  {
    var offset: nat := (page - 1) * size;
    Window(filtered, offset, size)
  }

  /** Every row is on exactly the page its index says, at the position the
    * remainder says. */
  lemma RowOnItsPage<T>(filtered: seq<T>, size: nat, k: nat)
    requires size > 0 && k < |filtered|
    ensures var page := k / size + 1;
      k % size < |PageData(filtered, page, size)| && PageData(filtered, page, size)[k % size] == filtered[k]
  {
    var page := k / size + 1;
    assert (page - 1) * size == k - k % size;
  }

  /** getPageStartIndex: the 1-based number of the first row shown. */
  function PageStart(length: nat, page: nat, size: nat): (r: nat)
    requires page >= 1
    ensures r == 0 <==> length == 0
    ensures length > 0 ==> r - 1 == (page - 1) * size
  {
    if length == 0 then 0 else (page - 1) * size + 1
  }

  /** getPageEndIndex: the 1-based number of the last row shown. */
  function PageEnd(length: nat, page: nat, size: nat): nat {
    Min(page * size, length)
  }

  /** On a page that has rows, "Showing start to end" counts exactly the
    * rows getPageData returns. */
  lemma PageIndicesAgree<T>(filtered: seq<T>, page: nat, size: nat)
    requires page >= 1 && (page - 1) * size < |filtered|
    ensures PageStart(|filtered|, page, size) == (page - 1) * size + 1
    ensures PageEnd(|filtered|, page, size) - PageStart(|filtered|, page, size) + 1 == |PageData(filtered, page, size)|
  {}

  /** `Math.ceil(length / size)`. */
  function TotalPages(length: nat, size: nat): (r: nat)
    requires size > 0
    ensures r * size >= length
    ensures r > 0 ==> (r - 1) * size < length
    ensures r == 0 <==> length == 0
  {
    var q := (length + size - 1) / size;
    assert length + size - 1 == q * size + (length + size - 1) % size;
    q
  }

  /** renderPagination's numbered buttons: none when there is at most one
    * page, else the pages from current-2 to current+2, clipped. */
  function PageWindow(length: nat, current: int, size: nat): (r: Option<(int, int)>)
    requires size > 0
    ensures r.Some? <==> TotalPages(length, size) > 1
    ensures r.Some? ==> 1 <= r.value.0 && r.value.1 <= TotalPages(length, size)
    ensures r.Some? ==> r.value.1 - r.value.0 <= 4
  {
    var total := TotalPages(length, size);
    if total <= 1 then None else Some((Max(1, current - 2), Min(total, current + 2)))
  }

  /** The current page is always among its numbered buttons, and a page on
    * which `length` rows end exists. */
  lemma PageWindowHasCurrent(length: nat, current: int, size: nat)
    requires size > 0 && 1 <= current <= TotalPages(length, size) && TotalPages(length, size) > 1
    ensures var w := PageWindow(length, current, size).value; w.0 <= current <= w.1
    ensures TotalPages(length, size) * size >= length > (TotalPages(length, size) - 1) * size
  {
    var total := TotalPages(length, size);
    var q := (length + size - 1) / size;
    var rem := (length + size - 1) % size;
    assert length + size - 1 == q * size + rem;
  }

  // ---------------------------------------------------------------------
  // filterData
  // ---------------------------------------------------------------------

  /** The search test: some searchable field has a truthy value whose
    * lower-cased text contains the lower-cased term. */
  predicate MatchesSearch(item: JsValue, fields: seq<Field>, term: string) {
    exists k :: 0 <= k < |fields| && fields[k].searchable &&
      Truthy(Prop(item, fields[k].name)) &&
      Contains(Lower(ToStr(Prop(item, fields[k].name))), Lower(term))
  }

  /** The active filters: each named property is `===` its value. */
  predicate MatchesFilters(item: JsValue, filters: Record) {
    forall k :: 0 <= k < |filters| ==> StrictEquals(Prop(item, filters[k].0), filters[k].1)
  }

  predicate Keep(item: JsValue, fields: seq<Field>, term: string, filters: Record) {
    (term != [] ==> MatchesSearch(item, fields, term)) && MatchesFilters(item, filters)
  }

  function FilterItems(data: seq<JsValue>, fields: seq<Field>, term: string, filters: Record): (r: seq<JsValue>)
    ensures |r| <= |data|
    ensures forall x :: x in r <==> x in data && Keep(x, fields, term, filters)
  {
    if data == [] then []
    else
      var rest := FilterItems(data[1..], fields, term, filters);
      assert forall x :: x in data <==> x == data[0] || x in data[1..];
      if Keep(data[0], fields, term, filters) then [data[0]] + rest else rest
  }

  /** The sort comparator: `<` and `>` on the field's values, negated for
    * descending order. */
  function Comparator(field: string, dir: Direction): (JsValue, JsValue) -> int {
    (a: JsValue, b: JsValue) =>
      var x := Prop(a, field);
      var y := Prop(b, field);
      if Less(x, y) then (if dir == Asc then -1 else 1)
      else if Less(y, x) then (if dir == Asc then 1 else -1)
      else 0
  }

  /** The filtered view: the kept items, sorted when a sort field is set. */
  function View(data: seq<JsValue>, fields: seq<Field>, term: string, filters: Record,
                sortField: string, dir: Direction): seq<JsValue>
  {
    var kept := FilterItems(data, fields, term, filters);
    if sortField != [] then SortBy(kept, Comparator(sortField, dir)) else kept
  }

  /** Each item that passes is kept as often as it occurs in the data, and
    * every other item not at all. */
  lemma {:induction false} FilterItemsCounts(data: seq<JsValue>, fields: seq<Field>, term: string, filters: Record, x: JsValue)
    ensures multiset(FilterItems(data, fields, term, filters))[x] ==
      if Keep(x, fields, term, filters) then multiset(data)[x] else 0
    decreases |data|
  {
    if data != [] {
      FilterItemsCounts(data[1..], fields, term, filters, x);
      assert data == [data[0]] + data[1..];
      assert multiset(data) == multiset{data[0]} + multiset(data[1..]);
      var rest := FilterItems(data[1..], fields, term, filters);
      if Keep(data[0], fields, term, filters) {
        assert multiset([data[0]] + rest) == multiset{data[0]} + multiset(rest);
      }
    }
  }

  /** The view holds exactly the items that pass the search and every
    * filter, each as often as in the data, whatever the sort. */
  lemma ViewContents(data: seq<JsValue>, fields: seq<Field>, term: string, filters: Record,
                     sortField: string, dir: Direction)
    ensures multiset(View(data, fields, term, filters, sortField, dir)) == multiset(FilterItems(data, fields, term, filters))
    ensures forall x :: x in View(data, fields, term, filters, sortField, dir) <==>
      x in data && Keep(x, fields, term, filters)
    ensures forall x :: multiset(View(data, fields, term, filters, sortField, dir))[x] ==
                        (if Keep(x, fields, term, filters) then multiset(data)[x] else 0)
  {
    var v := View(data, fields, term, filters, sortField, dir);
    var kept := FilterItems(data, fields, term, filters);
    forall x ensures multiset(v)[x] == if Keep(x, fields, term, filters) then multiset(data)[x] else 0 {
      FilterItemsCounts(data, fields, term, filters, x);
    }
    forall x ensures x in v <==> x in kept {
      assert x in v <==> x in multiset(v);
      assert x in kept <==> x in multiset(kept);
    }
  }

  /** With no search term and no filters every item is kept. */
  lemma {:induction false} NoFilterKeepsAll(data: seq<JsValue>, fields: seq<Field>)
    ensures FilterItems(data, fields, [], []) == data
  {
    if data != [] {
      NoFilterKeepsAll(data[1..], fields);
      assert data == [data[0]] + data[1..];
    }
  }

  // ---------------------------------------------------------------------
  // generateId, formatFieldValue, groupFieldsBySection
  // ---------------------------------------------------------------------

  /** `parseInt(item[key]) || 0`. */
  function KeyNumber(item: JsValue, key: string): int {
    match ParseInt(Prop(item, key))
    case Some(n) => n
    case None => 0
  }

  /** The largest of `f` over `data`, and 0 when that is larger. */
  function MaxOver<T>(data: seq<T>, f: T -> int): (m: int)
    ensures m >= 0
    ensures forall k :: 0 <= k < |data| ==> f(data[k]) <= m
    ensures m == 0 || exists k :: 0 <= k < |data| && f(data[k]) == m
  {
    if data == [] then 0
    else
      var rest := MaxOver(data[1..], f);
      assert forall k :: 1 <= k < |data| ==> data[k] == data[1..][k - 1];
      Max(f(data[0]), rest)
  }

  /** `Math.max(...keys, 0)`. */
  function MaxKey(data: seq<JsValue>, key: string): (m: int)
    ensures m >= 0
    ensures forall k :: 0 <= k < |data| ==> KeyNumber(data[k], key) <= m
    ensures m == 0 || exists k :: 0 <= k < |data| && KeyNumber(data[k], key) == m
  {
    MaxOver(data, item => KeyNumber(item, key))
  }

  /** generateId: one more than the largest numeric key, and 1 when no key
    * is positive; it is no item's numeric key. */
  function GenerateId(data: seq<JsValue>, key: string): (id: int)
    ensures id >= 1
    ensures forall k :: 0 <= k < |data| ==> KeyNumber(data[k], key) < id
    ensures id == 1 || exists k :: 0 <= k < |data| && KeyNumber(data[k], key) == id - 1
  {
    MaxKey(data, key) + 1
  }

  /** An empty list starts at 1. */
  lemma GenerateIdEmpty(key: string)
    ensures GenerateId([], key) == 1
  {}

  const TruncateAt: nat := 50

  /** formatFieldValue for a plain field: None stands for the '-'
    * placeholder of a null, undefined or empty value; longer texts are cut
    * to 50 characters and marked with '...'. */
  function FormatPlain(value: JsValue): (r: Option<string>)
    ensures r.None? <==> IsNullish(value) || value == Str("")
    ensures r.Some? ==> |r.value| <= TruncateAt + 3
    ensures r.Some? && |ToStr(value)| <= TruncateAt ==> r.value == ToStr(value)
    ensures r.Some? && |ToStr(value)| > TruncateAt ==> r.value == ToStr(value)[..TruncateAt] + "..."
  {
    if IsNullish(value) || value == Str("") then None
    else
      var s := ToStr(value);
      if |s| > TruncateAt then Some(s[..TruncateAt] + "...") else Some(s)
  }

  /** `field.section || 'General Information'`. */
  function SectionOf(f: Field): string {
    if f.section == [] then "General Information" else f.section
  }

  /** The fields of one section, in order. */
  function FieldsIn(fields: seq<Field>, section: string): seq<Field> {
    if fields == [] then []
    else
      var last := fields[|fields| - 1];
      FieldsIn(fields[..|fields| - 1], section) + (if SectionOf(last) == section then [last] else [])
  }

  /** The sections object after the first `fields` have been placed. */
  function Sections(fields: seq<Field>): seq<(string, seq<Field>)> {
    if fields == [] then []
    else
      var prior := Sections(fields[..|fields| - 1]);
      var last := fields[|fields| - 1];
      var existing := match Lookup(prior, SectionOf(last)) case Some(g) => g case None => [];
      Put(prior, SectionOf(last), existing + [last])
  }

  /** Each section lists exactly its fields in their configured order, and
    * a section exists exactly when some field names it. */
  lemma {:induction false} SectionsGroup(fields: seq<Field>, section: string)
    ensures Lookup(Sections(fields), section) ==
      if FieldsIn(fields, section) == [] then None else Some(FieldsIn(fields, section))
    decreases |fields|
  {
    if fields != [] {
      var init := fields[..|fields| - 1];
      var last := fields[|fields| - 1];
      SectionsGroup(init, section);
      SectionsGroup(init, SectionOf(last));
      var prior := Sections(init);
      var existing := match Lookup(prior, SectionOf(last)) case Some(g) => g case None => [];
      LookupPut(prior, SectionOf(last), existing + [last], section);
      assert Sections(fields) == Put(prior, SectionOf(last), existing + [last]);
      assert FieldsIn(fields, section) == FieldsIn(init, section) + (if SectionOf(last) == section then [last] else []);
      if SectionOf(last) == section {
        assert existing == FieldsIn(init, section);
        assert Lookup(Sections(fields), section) == Some(FieldsIn(init, section) + [last]);
      } else {
        assert Lookup(Sections(fields), section) == Lookup(prior, section);
        assert FieldsIn(fields, section) == FieldsIn(init, section);
      }
    }
  }

  /** groupFieldsBySection: the forEach loop. */
  method GroupFieldsBySection(fields: seq<Field>) returns (sections: seq<(string, seq<Field>)>)
    ensures sections == Sections(fields)
  {
    sections := [];
    var i := 0;
    while i < |fields|
      invariant 0 <= i <= |fields|
      invariant sections == Sections(fields[..i])
    {
      var field := fields[i];
      var name := SectionOf(field);
      var group := Lookup(sections, name);
      var existing := if group.Some? then group.value else [];
      assert fields[..i + 1][..i] == fields[..i];
      sections := Put(sections, name, existing + [field]);
      i := i + 1;
    }
    assert fields[..i] == fields;
  }

  // ---------------------------------------------------------------------
  // The list state
  // ---------------------------------------------------------------------

  /** `item[primaryKey] == id`, the first such index. */
  function FirstWithKey(data: seq<JsValue>, key: string, id: JsValue): (r: Option<nat>)
    ensures r.Some? ==> r.value < |data| && LooseEquals(Prop(data[r.value], key), id)
    ensures r.Some? ==> forall k :: 0 <= k < r.value ==> !LooseEquals(Prop(data[k], key), id)
    ensures r.None? ==> forall k :: 0 <= k < |data| ==> !LooseEquals(Prop(data[k], key), id)
  {
    if data == [] then None
    else if LooseEquals(Prop(data[0], key), id) then Some(0)
    else
      match FirstWithKey(data[1..], key, id)
      case None => None
      case Some(i) => Some(i + 1)
  }

  class ListView {
    const fields: seq<Field>
    const primaryKey: string
    const pageSize: nat
    var data: seq<JsValue>
    var filteredData: seq<JsValue>
    var currentPage: nat
    var searchTerm: string
    var activeFilters: Record
    var sortField: string
    var sortDirection: Direction

    ghost predicate Valid()
      reads this
    {
      currentPage >= 1
    }

    /** The configured view, with no data, on page 1, unsorted. `None` is a
      * key absent from the config object: `primaryKey || 'id'` and
      * `pageSize || 25` then apply. A key the config does give, even '' or
      * 0, is copied over those defaults by the trailing `...config`. */
    constructor(fields: seq<Field>, primaryKey: Option<string>, pageSize: Option<nat>)
      ensures Valid()
      ensures this.fields == fields
      ensures this.primaryKey == if primaryKey.Some? then primaryKey.value else "id"
      ensures this.pageSize == if pageSize.Some? then pageSize.value else 25
      ensures data == [] && filteredData == [] && currentPage == 1
      ensures searchTerm == [] && activeFilters == [] && sortField == [] && sortDirection == Asc
    {
      this.fields := fields;
      this.primaryKey := if primaryKey.Some? then primaryKey.value else "id";
      this.pageSize := if pageSize.Some? then pageSize.value else 25;
      data := [];
      filteredData := [];
      currentPage := 1;
      searchTerm := [];
      activeFilters := [];
      sortField := [];
      sortDirection := Asc;
    }

    /** filterData: recompute the view from the data. */
    method FilterData()
      modifies this
      ensures filteredData == View(data, fields, searchTerm, activeFilters, sortField, sortDirection)
      ensures data == old(data) && currentPage == old(currentPage) && searchTerm == old(searchTerm)
      ensures activeFilters == old(activeFilters) && sortField == old(sortField) && sortDirection == old(sortDirection)
    {
      filteredData := View(data, fields, searchTerm, activeFilters, sortField, sortDirection);
    }

    /** sortData: the same column flips the direction, a new one sorts
      * ascending. */
    method SortData(field: string)
      modifies this
      ensures old(sortField) == field ==> sortField == field && sortDirection == Flip(old(sortDirection))
      ensures old(sortField) != field ==> sortField == field && sortDirection == Asc
      ensures filteredData == View(data, fields, searchTerm, activeFilters, sortField, sortDirection)
      ensures data == old(data) && currentPage == old(currentPage)
      ensures searchTerm == old(searchTerm) && activeFilters == old(activeFilters)
    {
      if sortField == field {
        sortDirection := Flip(sortDirection);
      } else {
        sortField := field;
        sortDirection := Asc;
      }
      FilterData();
    }

    /** deleteItem: the first item whose key is `==` the id is removed and
      * the view recomputed; no match changes nothing. */
    method DeleteItem(id: JsValue)
      modifies this
      ensures FirstWithKey(old(data), primaryKey, id).None? ==>
        data == old(data) && filteredData == old(filteredData)
      ensures FirstWithKey(old(data), primaryKey, id).Some? ==>
        var i := FirstWithKey(old(data), primaryKey, id).value;
        data == Without(old(data), i) &&
        filteredData == View(data, fields, searchTerm, activeFilters, sortField, sortDirection)
      ensures currentPage == old(currentPage) && searchTerm == old(searchTerm)
      ensures activeFilters == old(activeFilters) && sortField == old(sortField) && sortDirection == old(sortDirection)
    {
      var index := FirstWithKey(data, primaryKey, id);
      if index.Some? {
        data := Without(data, index.value);
        FilterData();
      }
    }
  }

  /** The items with the one at `i` spliced out. */
  function Without(data: seq<JsValue>, i: nat): seq<JsValue>
    requires i < |data|
  {
    data[..i] + data[i + 1..]
  }

  /** Deleting removes one item and keeps the others, in order. */
  lemma DeleteRemovesOne(data: seq<JsValue>, i: nat)
    requires i < |data|
    ensures var after := Without(data, i);
      |after| == |data| - 1 && multiset(after) + multiset{data[i]} == multiset(data) &&
      (forall k :: 0 <= k < i ==> after[k] == data[k]) &&
      (forall k :: i <= k < |after| ==> after[k] == data[k + 1])
  {
    assert data == data[..i] + [data[i]] + data[i + 1..];
  }
}
