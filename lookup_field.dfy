/** LookupField: the keyboard-driven type-ahead box (its filtered list, the
  * highlighted index, the chosen value) and the address component parser
  * of the address field. The input element's text and its `data-value`
  * attribute are fields of the model. */
module LookupField {
  import opened Basics
  import opened Text
  import opened JsValues
  import opened Identified

  /** `s.slice(0, n)`: a negative count drops that many from the end. */
  function Slice<T>(s: seq<T>, n: int): (r: seq<T>)
    ensures n >= 0 ==> r == s[..Min(n, |s|)]
    ensures n < 0 ==> r == s[..Max(|s| + n, 0)]
  {
    if n >= 0 then s[..Min(n, |s|)] else s[..Max(|s| + n, 0)]
  }

  /** Some search field holds a truthy value whose lower-cased text contains
    * the (lower-cased) term. */
  predicate ItemMatches(item: JsValue, fields: seq<string>, term: string) {
    exists k :: 0 <= k < |fields| &&
      Truthy(Prop(item, fields[k])) && Contains(Lower(ToStr(Prop(item, fields[k]))), term)
  }

  function Matching(data: seq<JsValue>, fields: seq<string>, term: string): (r: seq<JsValue>)
    ensures |r| <= |data|
    ensures forall x :: x in r <==> x in data && ItemMatches(x, fields, term)
  {
    if data == [] then []
    else
      var rest := Matching(data[1..], fields, term);
      assert forall x :: x in data <==> x == data[0] || x in data[1..];
      if ItemMatches(data[0], fields, term) then [data[0]] + rest else rest
  }

  /** The list filterData shows for a search term. */
  function FilterResults(data: seq<JsValue>, fields: seq<string>, maxResults: int, term: string): seq<JsValue> {
    Slice(Matching(data, fields, Lower(term)), maxResults)
  }

  /** At most `maxResults` items, each from the data and matching the term,
    * and they are the first matches in data order. */
  lemma FilterResultsProperties(data: seq<JsValue>, fields: seq<string>, maxResults: int, term: string)
    requires maxResults >= 0
    ensures var r := FilterResults(data, fields, maxResults, term);
      |r| <= maxResults &&
      (forall x :: x in r ==> x in data && ItemMatches(x, fields, Lower(term))) &&
      r <= Matching(data, fields, Lower(term)) &&
      (|r| < maxResults ==> r == Matching(data, fields, Lower(term)))
  {
    var m := Matching(data, fields, Lower(term));
    var r := FilterResults(data, fields, maxResults, term);
    forall x | x in r ensures x in m {
      var k :| 0 <= k < |r| && r[k] == x;
      assert m[k] == x;
    }
  }

  /** The highlighted index after an arrow key on a list of `len` items. */
  function ArrowIndex(i: int, key: string, len: nat): int {
    if key == "ArrowDown" then Min(i + 1, len - 1)
    else if key == "ArrowUp" then Max(i - 1, -1)
    else i
  }

  /** The index after a run of keys. */
  function ArrowIndexAfter(i: int, keys: seq<string>, len: nat): int
    decreases |keys|
  {
    if keys == [] then i else ArrowIndexAfter(ArrowIndex(i, keys[0], len), keys[1..], len)
  }

  /** Starting anywhere in -1 .. len-1, arrow keys never leave that range. */
  lemma {:induction false} ArrowIndexInRange(i: int, keys: seq<string>, len: nat)
    requires -1 <= i <= len - 1
    ensures -1 <= ArrowIndexAfter(i, keys, len) <= len - 1
    decreases |keys|
  {
    if keys != [] {
      ArrowIndexInRange(ArrowIndex(i, keys[0], len), keys[1..], len);
    }
  }

  /** ArrowUp undoes ArrowDown everywhere but on the last item, and
    * ArrowDown undoes ArrowUp everywhere but before the first one. */
  lemma ArrowKeysUndo(i: int, len: nat)
    requires -1 <= i <= len - 1
    ensures i < len - 1 ==> ArrowIndex(ArrowIndex(i, "ArrowDown", len), "ArrowUp", len) == i
    ensures i >= 0 ==> ArrowIndex(ArrowIndex(i, "ArrowUp", len), "ArrowDown", len) == i
    ensures ArrowIndex(len - 1, "ArrowDown", len) == len - 1 && ArrowIndex(-1, "ArrowUp", len) == -1
  {}

  /** The text an input shows once assigned a value (`null` shows empty). */
  function InputText(v: JsValue): (r: string)
    ensures v.Null? ==> r == []
    ensures v.Str? ==> r == v.s
  {
    if v.Null? then [] else ToStr(v)
  }

  /** createLookupField's data: a string becomes `{name, value}` with both
    * set to it; anything else is kept. */
  function LookupItem(item: JsValue): (r: JsValue)
    ensures item.Str? ==> Prop(r, "name") == item && Prop(r, "value") == item
    ensures !item.Str? ==> r == item
  {
    if item.Str? then
      var r := Obj([("name", item), ("value", item)]);
      assert "value"[0] != "name"[0];
      assert Get(Entries(r), "value") == Get([("value", item)], "value");
      r
    else item
  }

  function CreateLookupData(data: seq<JsValue>): (r: seq<JsValue>)
    ensures |r| == |data| && forall k :: 0 <= k < |data| ==> r[k] == LookupItem(data[k])
  {
    if data == [] then [] else [LookupItem(data[0])] + CreateLookupData(data[1..])
  }

  /** Strings become objects that every default-configured lookup finds by
    * any substring of the string, whatever its case in the query. */
  lemma CreatedItemsMatch(s: string, pre: string, mid: string, post: string)
    requires s == pre + mid + post
    ensures ItemMatches(LookupItem(Str(s)), ["name", "value"], Lower(mid)) <==> s != []
  {
    var item := LookupItem(Str(s));
    var fields := ["name", "value"];
    assert Prop(item, fields[0]) == Str(s) && Prop(item, fields[1]) == Str(s);
    if s != [] {
      assert Lower(s) == Lower(pre) + Lower(mid) + Lower(post);
      ContainsAt(Lower(s), Lower(mid), |pre|);
      assert Truthy(Prop(item, fields[0])) && Contains(Lower(ToStr(Prop(item, fields[0]))), Lower(mid));
    }
  }

  /** `array.find(item => item[field] === value)`. */
  function FindBy(data: seq<JsValue>, field: string, value: JsValue): (r: Option<JsValue>)
    ensures r.Some? ==> r.value in data && StrictEquals(Prop(r.value, field), value)
    ensures r.None? <==> forall x :: x in data ==> !StrictEquals(Prop(x, field), value)
  {
    if data == [] then None
    else if StrictEquals(Prop(data[0], field), value) then Some(data[0])
    else
      assert forall x :: x in data <==> x == data[0] || x in data[1..];
      FindBy(data[1..], field, value)
  }

  class Field {
    var data: seq<JsValue>
    const maxResults: int
    const searchFields: seq<string>
    const displayField: string
    const valueField: string
    var isOpen: bool
    var selectedIndex: int
    var filteredData: seq<JsValue>
    /** The input element's text and its `data-value` attribute. */
    var inputValue: string
    var dataValue: Option<string>

    /** The index is never below -1, and it is -1 whenever the list is
      * closed. */
    predicate Valid()
      reads this
    {
      -1 <= selectedIndex && (!isOpen ==> selectedIndex == -1)
    }

    /** The options with their defaults: 10 results, search on name and
      * value, show name, keep value. */
    constructor(data: seq<JsValue>, maxResults: Option<int>, searchFields: Option<seq<string>>,
                displayField: Option<string>, valueField: Option<string>)
      ensures Valid()
      ensures this.data == data && !isOpen && selectedIndex == -1 && filteredData == []
      ensures this.maxResults == if maxResults.Some? && maxResults.value != 0 then maxResults.value else 10
      ensures this.searchFields == if searchFields.Some? then searchFields.value else ["name", "value"]
      ensures this.displayField == if displayField.Some? && displayField.value != [] then displayField.value else "name"
      ensures this.valueField == if valueField.Some? && valueField.value != [] then valueField.value else "value"
      ensures inputValue == [] && dataValue == None
    {
      this.data := data;
      this.maxResults := if maxResults.Some? && maxResults.value != 0 then maxResults.value else 10;
      this.searchFields := if searchFields.Some? then searchFields.value else ["name", "value"];
      this.displayField := if displayField.Some? && displayField.value != [] then displayField.value else "name";
      this.valueField := if valueField.Some? && valueField.value != [] then valueField.value else "value";
      isOpen := false;
      selectedIndex := -1;
      filteredData := [];
      inputValue := [];
      dataValue := None;
    }

    method OpenDropdown()
      modifies this
      requires Valid()
      ensures Valid() && isOpen
      ensures selectedIndex == old(selectedIndex) && filteredData == old(filteredData) && data == old(data)
      ensures inputValue == old(inputValue) && dataValue == old(dataValue)
    {
      isOpen := true;
    }

    /** closeDropdown. */
    method CloseDropdown()
      modifies this
      ensures Valid() && !isOpen && selectedIndex == -1
      ensures filteredData == old(filteredData) && data == old(data)
      ensures inputValue == old(inputValue) && dataValue == old(dataValue)
    {
      isOpen := false;
      selectedIndex := -1;
    }

    /** filterData. */
    method FilterData(term: string)
      modifies this
      requires Valid()
      ensures Valid()
      ensures filteredData == FilterResults(data, searchFields, maxResults, term) && selectedIndex == -1
      ensures isOpen == old(isOpen) && data == old(data)
      ensures inputValue == old(inputValue) && dataValue == old(dataValue)
    {
      filteredData := Slice(Matching(data, searchFields, Lower(term)), maxResults);
      selectedIndex := -1;
    }

    /** The input event: filter on the new text, open when it is not empty. */
    method HandleInput(value: string)
      modifies this
      requires Valid()
      ensures Valid()
      ensures inputValue == value && filteredData == FilterResults(data, searchFields, maxResults, value)
      ensures isOpen <==> value != []
      ensures selectedIndex == -1 && data == old(data) && dataValue == old(dataValue)
    {
      inputValue := value;
      FilterData(value);
      if |value| > 0 {
        OpenDropdown();
      } else {
        CloseDropdown();
      }
    }

    /** The focus event: the filtered list, or the first items for an empty
      * input, shown either way. */
    method HandleFocus()
      modifies this
      requires Valid()
      ensures Valid() && isOpen
      ensures inputValue != [] ==> filteredData == FilterResults(data, searchFields, maxResults, inputValue) && selectedIndex == -1
      ensures inputValue == [] ==> filteredData == Slice(data, maxResults) && selectedIndex == old(selectedIndex)
      ensures inputValue == old(inputValue) && data == old(data) && dataValue == old(dataValue)
    {
      if |inputValue| > 0 {
        FilterData(inputValue);
        OpenDropdown();
      } else {
        filteredData := Slice(data, maxResults);
        OpenDropdown();
      }
    }

    /** selectItem: a falsy item is ignored; otherwise the input shows the
      * item's display field, remembers its value and the list closes. The
      * item handed to onSelect is returned. */
    method SelectItem(item: JsValue) returns (chosen: Option<JsValue>)
      modifies this
      requires Valid()
      ensures Valid()
      ensures !Truthy(item) ==> (chosen == None && isOpen == old(isOpen) && selectedIndex == old(selectedIndex) &&
        inputValue == old(inputValue) && dataValue == old(dataValue))
      ensures Truthy(item) ==> (chosen == Some(item) && !isOpen && selectedIndex == -1 &&
        inputValue == InputText(Prop(item, displayField)) && dataValue == Some(ToStr(Prop(item, valueField))))
      ensures filteredData == old(filteredData) && data == old(data)
    {
      chosen := None;
      if Truthy(item) {
        inputValue := InputText(Prop(item, displayField));
        dataValue := Some(ToStr(Prop(item, valueField)));
        CloseDropdown();
        chosen := Some(item);
      }
    }

    /** handleKeydown: returns the item chosen with Enter, if any. */
    method HandleKeydown(key: string) returns (chosen: Option<JsValue>)
      modifies this
      requires Valid()
      ensures Valid()
      ensures !old(isOpen) && key == "ArrowDown" && inputValue == [] ==>
        isOpen && filteredData == Slice(data, maxResults) && selectedIndex == -1
      ensures !old(isOpen) && !(key == "ArrowDown" && inputValue == []) ==>
        !isOpen && filteredData == old(filteredData) && selectedIndex == old(selectedIndex)
      ensures old(isOpen) ==> filteredData == old(filteredData)
      ensures old(isOpen) && (key == "ArrowDown" || key == "ArrowUp") ==>
        isOpen && selectedIndex == ArrowIndex(old(selectedIndex), key, |filteredData|)
      ensures old(isOpen) && (key == "Escape" || key == "Tab") ==> !isOpen && selectedIndex == -1
      ensures old(isOpen) && key !in {"ArrowDown", "ArrowUp", "Enter", "Escape", "Tab"} ==>
        isOpen && selectedIndex == old(selectedIndex)
      ensures old(isOpen) && key == "Enter" ==>
        (old(selectedIndex) < 0 || old(selectedIndex) >= |old(filteredData)| ==>
           chosen == None && isOpen && selectedIndex == old(selectedIndex) &&
           inputValue == old(inputValue) && dataValue == old(dataValue))
      ensures old(isOpen) && key == "Enter" && 0 <= old(selectedIndex) < |old(filteredData)| ==>
        var item := old(filteredData)[old(selectedIndex)];
        (Truthy(item) ==>
           chosen == Some(item) && !isOpen && selectedIndex == -1 &&
           inputValue == InputText(Prop(item, displayField)) && dataValue == Some(ToStr(Prop(item, valueField)))) &&
        (!Truthy(item) ==>
           chosen == None && isOpen && selectedIndex == old(selectedIndex) &&
           inputValue == old(inputValue) && dataValue == old(dataValue))
      ensures key != "Enter" ==> chosen == None && inputValue == old(inputValue) && dataValue == old(dataValue)
      ensures data == old(data)
    {
      chosen := None;
      if !isOpen {
        if key == "ArrowDown" && |inputValue| == 0 {
          filteredData := Slice(data, maxResults);
          OpenDropdown();
        }
        return;
      }
      if key == "ArrowDown" {
        selectedIndex := Min(selectedIndex + 1, |filteredData| - 1);
      } else if key == "ArrowUp" {
        selectedIndex := Max(selectedIndex - 1, -1);
      } else if key == "Enter" {
        if selectedIndex >= 0 {
          // An index past the end reads `undefined`, which selectItem ignores.
          var item := if selectedIndex < |filteredData| then filteredData[selectedIndex] else Undefined;
          chosen := SelectItem(item);
        }
      } else if key == "Escape" || key == "Tab" {
        CloseDropdown();
      }
    }

    /** setValue: only a value some item carries changes the input. */
    method SetValue(value: JsValue)
      modifies this
      requires Valid()
      ensures Valid()
      ensures match FindBy(data, valueField, value)
        case Some(item) =>
          (Truthy(item) ==> inputValue == InputText(Prop(item, displayField)) && dataValue == Some(ToStr(value))) &&
          (!Truthy(item) ==> inputValue == old(inputValue) && dataValue == old(dataValue))
        case None => inputValue == old(inputValue) && dataValue == old(dataValue)
      ensures isOpen == old(isOpen) && selectedIndex == old(selectedIndex)
      ensures filteredData == old(filteredData) && data == old(data)
    {
      var found := FindBy(data, valueField, value);
      if found.Some? && Truthy(found.value) {
        inputValue := InputText(Prop(found.value, displayField));
        dataValue := Some(ToStr(value));
      }
    }

    /** getValue: the stored value, or '' when none is stored. */
    method GetValue() returns (v: string)
      ensures dataValue.None? ==> v == []
      ensures dataValue.Some? ==> v == dataValue.value
    {
      v := if dataValue.Some? then dataValue.value else [];
    }

    /** updateData: new items, re-filtered when the list is open. */
    method UpdateData(newData: seq<JsValue>)
      modifies this
      requires Valid()
      ensures Valid() && data == newData && isOpen == old(isOpen)
      ensures old(isOpen) ==> filteredData == FilterResults(newData, searchFields, maxResults, inputValue) && selectedIndex == -1
      ensures !old(isOpen) ==> filteredData == old(filteredData) && selectedIndex == old(selectedIndex)
      ensures inputValue == old(inputValue) && dataValue == old(dataValue)
    {
      data := newData;
      if isOpen {
        FilterData(inputValue);
      }
    }
  }

  // ---------------------------------------------------------------------
  // Address components

  /** One geocoder address component. */
  datatype Component = Component(types: seq<string>, longName: JsValue)

  /** The result key a component fills, by the first type test it passes. */
  function Slot(c: Component): (r: Option<string>)
    ensures r.Some? ==> r.value in ["street", "suburb", "city", "postalCode"]
  {
    if "street_number" in c.types || "route" in c.types then Some("street")
    else if "sublocality" in c.types then Some("suburb")
    else if "locality" in c.types then Some("city")
    else if "postal_code" in c.types then Some("postalCode")
    else None
  }

  /** The result after one more component. */
  function AddressStep(result: Record, c: Component): Record {
    match Slot(c)
    case Some(key) => Put(result, key, c.longName)
    case None => result
  }

  /** The result after the components, one at a time. */
  function AddressOf(cs: seq<Component>): Record
    decreases |cs|
  {
    if cs == [] then [] else AddressStep(AddressOf(cs[..|cs| - 1]), cs[|cs| - 1])
  }

  /** The long name of the last component filling `key`. */
  function LastFilling(cs: seq<Component>, key: string): (r: Option<JsValue>)
    ensures r.Some? ==> exists k :: 0 <= k < |cs| && Slot(cs[k]) == Some(key) && cs[k].longName == r.value
    decreases |cs|
  {
    if cs == [] then None
    else if Slot(cs[|cs| - 1]) == Some(key) then Some(cs[|cs| - 1].longName)
    else
      var r := LastFilling(cs[..|cs| - 1], key);
      assert forall k :: 0 <= k < |cs| - 1 ==> cs[..|cs| - 1][k] == cs[k];
      r
  }

  /** Each key of the parsed address holds the long name of the last
    * component whose first matching type fills it; no other key is set. */
  lemma {:induction false} AddressOfLastWins(cs: seq<Component>, key: string)
    ensures Lookup(AddressOf(cs), key) == LastFilling(cs, key)
    decreases |cs|
  {
    if cs != [] {
      var init := cs[..|cs| - 1];
      var c := cs[|cs| - 1];
      AddressOfLastWins(init, key);
      match Slot(c)
      case Some(k) => LookupPut(AddressOf(init), k, c.longName, key);
      case None =>
    }
  }

  /** parseAddressComponents: {} for a missing list, else the components'
    * long names under street, suburb, city and postalCode. */
  method ParseAddressComponents(components: Option<seq<Component>>) returns (result: Record)
    ensures components.None? ==> result == []
    ensures components.Some? ==> result == AddressOf(components.value)
  {
    result := [];
    if components.None? {
      return;
    }
    var cs := components.value;
    var i := 0;
    while i < |cs|
      invariant 0 <= i <= |cs|
      invariant result == AddressOf(cs[..i])
    {
      assert cs[..i + 1][..i] == cs[..i];
      result := AddressStep(result, cs[i]);
      i := i + 1;
    }
    assert cs[..|cs|] == cs;
  }

  /** The parsed address only ever has the four keys. */
  lemma AddressKeys(cs: seq<Component>, key: string)
    requires key !in ["street", "suburb", "city", "postalCode"]
    ensures key !in Keys(AddressOf(cs))
  {
    AddressOfLastWins(cs, key);
  }
}
