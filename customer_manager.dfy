/** CustomerManager: the legacy customer screen's list, its search and
  * filters, the form's validation, the auto-save that writes the form back
  * into the list, deletion, and the state resets of the list/form views.
  * Customers are plain objects (`Obj` values) compared by their `id`. */
module CustomerManager {
  import opened Basics
  import opened Text
  import opened JsValues
  import opened Identified

  datatype View = ListView | FormView

  // ---------------------------------------------------------------------
  // Filtering

  /** A filter applied only when its control holds a value. */
  function KeepIf(items: seq<JsValue>, on: bool, keep: JsValue -> bool): seq<JsValue> {
    if on then Keep(items, keep) else items
  }

  /** A filter applied only when `on` is a filter by the test that passes
    * everything when `on` is false. */
  lemma KeepIfIsKeep(items: seq<JsValue>, on: bool, keep: JsValue -> bool)
    ensures KeepIf(items, on, keep) == Keep(items, When(on, keep))
  {
    if on {
      KeepSame(items, keep, When(on, keep));
    } else {
      KeepAll(items, When(on, keep));
    }
  }

  /** The fields the search box looks in, in the order they are tried. */
  const SearchFields: seq<string> := ["accountNo", "accountName", "phone", "email"]

  /** `customer[f].toLowerCase().includes(term)` over `fields` joined by
    * `||`: the first field holding the term answers true; a field that is
    * not text throws when it is reached. */
  function SearchHit(customer: JsValue, fields: seq<string>, term: string): (r: Result<bool, string>)
    ensures r == Ok(true) ==>
      exists k :: 0 <= k < |fields| && Prop(customer, fields[k]).Str? && Contains(Lower(Prop(customer, fields[k]).s), term)
    ensures (forall k :: 0 <= k < |fields| ==> Prop(customer, fields[k]).Str?) ==> r.Ok?
  {
    if fields == [] then Ok(false)
    else
      var v := Prop(customer, fields[0]);
      if !v.Str? then Err("TypeError")
      else if Contains(Lower(v.s), term) then Ok(true)
      else
        var rest := SearchHit(customer, fields[1..], term);
        assert forall k :: 0 <= k < |fields[1..]| ==> fields[1..][k] == fields[k + 1];
        rest
  }

  /** Every search field of the customer is text. */
  predicate SearchableText(customer: JsValue) {
    forall k :: 0 <= k < |SearchFields| ==> Prop(customer, SearchFields[k]).Str?
  }

  /** The search test, for a customer whose search fields are text. */
  predicate MatchesSearch(customer: JsValue, term: string) {
    exists k :: 0 <= k < |SearchFields| && Prop(customer, SearchFields[k]).Str? &&
      Contains(Lower(Prop(customer, SearchFields[k]).s), term)
  }

  /** On text fields the short-circuit search answers exactly whether some
    * field holds the term. */
  lemma {:induction false} SearchHitText(customer: JsValue, fields: seq<string>, term: string)
    requires forall k :: 0 <= k < |fields| ==> Prop(customer, fields[k]).Str?
    ensures SearchHit(customer, fields, term) ==
      Ok(exists k :: 0 <= k < |fields| && Prop(customer, fields[k]).Str? && Contains(Lower(Prop(customer, fields[k]).s), term))
    decreases |fields|
  {
    if fields != [] {
      SearchHitText(customer, fields[1..], term);
      assert forall k :: 0 <= k < |fields[1..]| ==> fields[1..][k] == fields[k + 1];
      if !Contains(Lower(Prop(customer, fields[0]).s), term) {
        assert (exists k :: 0 <= k < |fields| && Prop(customer, fields[k]).Str? && Contains(Lower(Prop(customer, fields[k]).s), term)) ==
          (exists k :: 0 <= k < |fields[1..]| && Prop(customer, fields[1..][k]).Str? && Contains(Lower(Prop(customer, fields[1..][k]).s), term));
      }
    }
  }

  /** The search stage of getFilteredData: the customers the (lower-cased)
    * term is found in, or the first customer's TypeError. */
  function SearchStage(items: seq<JsValue>, term: string): (r: Result<seq<JsValue>, string>)
    ensures r.Err? <==> exists k :: 0 <= k < |items| && SearchHit(items[k], SearchFields, term).Err?
  {
    if items == [] then Ok([])
    else
      var hit := SearchHit(items[0], SearchFields, term);
      var rest := SearchStage(items[1..], term);
      assert forall k :: 1 <= k < |items| ==> items[k] == items[1..][k - 1];
      if hit.Err? then Err(hit.error)
      else if rest.Err? then rest
      else if hit.value then Ok([items[0]] + rest.value)
      else rest
  }

  /** When every customer's search fields are text, the search stage keeps
    * exactly the customers that match. */
  lemma {:induction false} SearchStageKeeps(items: seq<JsValue>, term: string)
    requires forall k :: 0 <= k < |items| ==> SearchableText(items[k])
    ensures SearchStage(items, term) == Ok(Keep(items, SearchTest(term)))
    decreases |items|
  {
    if items != [] {
      SearchHitText(items[0], SearchFields, term);
      assert forall k :: 0 <= k < |items[1..]| ==> SearchableText(items[1..][k]) by {
        forall k | 0 <= k < |items[1..]| ensures SearchableText(items[1..][k]) {
          assert items[1..][k] == items[k + 1];
        }
      }
      SearchStageKeeps(items[1..], term);
    }
  }

  predicate AccountTypeIs(customer: JsValue, accountType: string) {
    StrictEquals(Prop(customer, "accountType"), Str(accountType))
  }

  predicate CompanyTypeIs(customer: JsValue, companyType: string) {
    StrictEquals(Prop(customer, "companyType"), Str(companyType))
  }

  /** The status filter: 'active' keeps active customers, any other value
    * keeps the customers whose isActive is exactly false. */
  predicate StatusIs(customer: JsValue, status: string) {
    StrictEquals(Prop(customer, "isActive"), Bool(status == "active"))
  }

  function SearchTest(term: string): JsValue -> bool { c => MatchesSearch(c, term) }
  function AccountTypeTest(accountType: string): JsValue -> bool { c => AccountTypeIs(c, accountType) }
  function CompanyTypeTest(companyType: string): JsValue -> bool { c => CompanyTypeIs(c, companyType) }
  function StatusTest(status: string): JsValue -> bool { c => StatusIs(c, status) }

  /** getFilteredData: the search, then each filter whose control holds a
    * value, in turn (an absent control reads as the empty string). */
  function FilteredData(items: seq<JsValue>, searchTerm: string, accountType: string, companyType: string, status: string)
    : Result<seq<JsValue>, string>
  {
    var searched := if searchTerm != [] then SearchStage(items, Lower(searchTerm)) else Ok(items);
    // Each later filter runs on what the one before it kept.
    if searched.Err? then searched
    else
      var s1 := searched.value;
      var s2 := KeepIf(s1, accountType != [], AccountTypeTest(accountType));
      var s3 := KeepIf(s2, companyType != [], CompanyTypeTest(companyType));
      var s4 := KeepIf(s3, status != [], StatusTest(status));
      Ok(s4)
  }

  /** The one test the filtered list applies: each part holds when its
    * control is empty. */
  predicate Passes(customer: JsValue, searchTerm: string, accountType: string, companyType: string, status: string) {
    (searchTerm == [] || MatchesSearch(customer, Lower(searchTerm))) &&
    (accountType == [] || AccountTypeIs(customer, accountType)) &&
    (companyType == [] || CompanyTypeIs(customer, companyType)) &&
    (status == [] || StatusIs(customer, status))
  }

  /** The four stages as one test. */
  function Stages(searchTerm: string, accountType: string, companyType: string, status: string): JsValue -> bool {
    Both(Both(Both(When(searchTerm != [], SearchTest(Lower(searchTerm))),
                   When(accountType != [], AccountTypeTest(accountType))),
              When(companyType != [], CompanyTypeTest(companyType))),
         When(status != [], StatusTest(status)))
  }

  /** The stages applied in turn keep what their conjunction keeps. */
  lemma FilteredDataStages(items: seq<JsValue>, searchTerm: string, accountType: string, companyType: string, status: string)
    requires searchTerm == [] || forall k :: 0 <= k < |items| ==> SearchableText(items[k])
    ensures FilteredData(items, searchTerm, accountType, companyType, status) ==
      Ok(Keep(items, Stages(searchTerm, accountType, companyType, status)))
  {
    var p0 := When(searchTerm != [], SearchTest(Lower(searchTerm)));
    var p1 := When(accountType != [], AccountTypeTest(accountType));
    var p2 := When(companyType != [], CompanyTypeTest(companyType));
    var p3 := When(status != [], StatusTest(status));
    var searched := if searchTerm != [] then SearchStage(items, Lower(searchTerm)) else Ok(items);
    var s1 := Keep(items, p0);
    assert searched == Ok(s1) by {
      if searchTerm != [] {
        SearchStageKeeps(items, Lower(searchTerm));
      }
      KeepIfIsKeep(items, searchTerm != [], SearchTest(Lower(searchTerm)));
    }
    var s2 := KeepIf(s1, accountType != [], AccountTypeTest(accountType));
    var s3 := KeepIf(s2, companyType != [], CompanyTypeTest(companyType));
    var s4 := KeepIf(s3, status != [], StatusTest(status));
    assert FilteredData(items, searchTerm, accountType, companyType, status) == Ok(s4);
    assert s2 == Keep(items, Both(p0, p1)) by {
      KeepIfIsKeep(s1, accountType != [], AccountTypeTest(accountType));
      KeepKeep(items, p0, p1);
    }
    assert s3 == Keep(items, Both(Both(p0, p1), p2)) by {
      KeepIfIsKeep(s2, companyType != [], CompanyTypeTest(companyType));
      KeepKeep(items, Both(p0, p1), p2);
    }
    assert s4 == Keep(items, Both(Both(Both(p0, p1), p2), p3)) by {
      KeepIfIsKeep(s3, status != [], StatusTest(status));
      KeepKeep(items, Both(Both(p0, p1), p2), p3);
    }
  }

  /** The conjunction of the stages is the customer test. */
  lemma StagesPasses(x: JsValue, searchTerm: string, accountType: string, companyType: string, status: string)
    ensures Stages(searchTerm, accountType, companyType, status)(x) == Passes(x, searchTerm, accountType, companyType, status)
  {
    var p0 := When(searchTerm != [], SearchTest(Lower(searchTerm)));
    var p1 := When(accountType != [], AccountTypeTest(accountType));
    var p2 := When(companyType != [], CompanyTypeTest(companyType));
    var p3 := When(status != [], StatusTest(status));
    assert Stages(searchTerm, accountType, companyType, status)(x) == (((p0(x) && p1(x)) && p2(x)) && p3(x));
    assert p0(x) == (searchTerm == [] || MatchesSearch(x, Lower(searchTerm)));
    assert p1(x) == (accountType == [] || AccountTypeIs(x, accountType));
    assert p2(x) == (companyType == [] || CompanyTypeIs(x, companyType));
    assert p3(x) == (status == [] || StatusIs(x, status));
  }

  /** The filtered list is the conjunction of the search and the three
    * filters, in the list's order, whenever the search can run. */
  lemma FilteredDataIsConjunction(items: seq<JsValue>, searchTerm: string, accountType: string, companyType: string, status: string)
    requires searchTerm == [] || forall k :: 0 <= k < |items| ==> SearchableText(items[k])
    ensures FilteredData(items, searchTerm, accountType, companyType, status) ==
      Ok(Keep(items, c => Passes(c, searchTerm, accountType, companyType, status)))
  {
    FilteredDataStages(items, searchTerm, accountType, companyType, status);
    var all := Stages(searchTerm, accountType, companyType, status);
    var passes := c => Passes(c, searchTerm, accountType, companyType, status);
    forall x ensures all(x) == passes(x) {
      StagesPasses(x, searchTerm, accountType, companyType, status);
    }
    KeepSame(items, all, passes);
  }

  // ---------------------------------------------------------------------
  // The form

  /** The properties validateForm requires to be filled in. */
  const RequiredFields: seq<string> := ["accountNo", "accountName", "companyType", "accountType"]

  predicate RequiredFilled(form: Record) {
    forall k :: 0 <= k < |RequiredFields| ==> Truthy(Get(form, RequiredFields[k]))
  }

  /** Another customer (not the one being edited) already has the account
    * number; with nothing being edited every customer counts. */
  predicate Clashes(customer: JsValue, form: Record, current: Option<JsValue>) {
    StrictEquals(Prop(customer, "accountNo"), Get(form, "accountNo")) &&
    (current.None? || !StrictEquals(IdOf(customer), IdOf(current.value)))
  }

  /** `this.data.find(...)` for a clashing customer. */
  function FindClash(items: seq<JsValue>, form: Record, current: Option<JsValue>): (r: Option<nat>)
    ensures r.Some? ==> r.value < |items| && Clashes(items[r.value], form, current)
    ensures r.None? <==> forall k :: 0 <= k < |items| ==> !Clashes(items[k], form, current)
  {
    if items == [] then None
    else if Clashes(items[0], form, current) then Some(0)
    else
      match FindClash(items[1..], form, current)
      case None =>
        assert forall k :: 1 <= k < |items| ==> items[k] == items[1..][k - 1];
        None
      case Some(i) => Some(i + 1)
  }

  const RequiredMessage := "Please fill in all required fields"
  const DuplicateMessage := "Account number already exists"

  /** validateForm: None when the form may be saved, else the message shown. */
  function ValidateForm(items: seq<JsValue>, form: Record, current: Option<JsValue>): (r: Option<string>)
    ensures r == Some(RequiredMessage) <==> !RequiredFilled(form)
    ensures r == Some(DuplicateMessage) <==>
      RequiredFilled(form) && exists k :: 0 <= k < |items| && Clashes(items[k], form, current)
    ensures r.None? <==>
      RequiredFilled(form) && forall k :: 0 <= k < |items| ==> !Clashes(items[k], form, current)
  {
    if !RequiredFilled(form) then
      Some(RequiredMessage)
    else if FindClash(items, form, current).Some? then Some(DuplicateMessage)
    else None
  }

  /** Re-saving the customer being edited with its own account number is not
    * a clash with itself. */
  lemma EditedCustomerNoSelfClash(customer: JsValue, form: Record)
    requires !IdOf(customer).Arr? && !IdOf(customer).Obj?
    ensures !Clashes(customer, form, Some(customer))
  {
    StrictEqualsReflexive(IdOf(customer));
  }

  /** The choices of the parent-account lookup: every customer but the one
    * being edited. */
  function ParentCandidates(items: seq<JsValue>, current: Option<JsValue>): (r: seq<JsValue>)
    ensures |r| <= |items|
    ensures forall c :: c in r <==> c in items && (current.None? || !StrictEquals(IdOf(c), IdOf(current.value)))
  {
    Keep(items, c => current.None? || !StrictEquals(IdOf(c), IdOf(current.value)))
  }

  /** Each choice shows and stores the account name. */
  function ParentAccounts(items: seq<JsValue>, current: Option<JsValue>): (r: seq<(JsValue, JsValue)>)
    ensures |r| == |ParentCandidates(items, current)|
    ensures forall k :: 0 <= k < |r| ==>
      var c := ParentCandidates(items, current)[k];
      r[k] == (Prop(c, "accountName"), Prop(c, "accountName"))
  {
    var cs := ParentCandidates(items, current);
    seq(|cs|, k requires 0 <= k < |cs| => (Prop(cs[k], "accountName"), Prop(cs[k], "accountName")))
  }

  /** The customer being edited is never offered as its own parent. */
  lemma {:induction false} NotOwnParent(items: seq<JsValue>, current: JsValue, k: nat)
    requires !IdOf(current).Arr? && !IdOf(current).Obj?
    requires k < |ParentCandidates(items, Some(current))|
    ensures !StrictEquals(IdOf(ParentCandidates(items, Some(current))[k]), IdOf(current))
  {
    var c := ParentCandidates(items, Some(current))[k];
    assert c in ParentCandidates(items, Some(current));
  }

  /** getEmptyCustomer; `today` is the ISO date the clock gives. */
  function EmptyCustomer(today: string): Record {
    [("accountNo", Str("")), ("accountName", Str("")), ("companyType", Str("")),
     ("companyRegistrationNo", Str("")), ("vatRegistrationNo", Str("")), ("phone", Str("")),
     ("email", Str("")), ("website", Str("")), ("parentAccount", Str("")),
     ("accountType", Str("Prospect")), ("customerStatus", Str("Prospect")), ("approvalStatus", Str("Pending")),
     ("dateCreated", Str(today)), ("quotesRequested", Num(0.0, "0")), ("totalQuoteValue", Num(0.0, "0")),
     ("ordersPlaced", Num(0.0, "0")), ("salesRepresentative", Str("")), ("relationshipType", Str("")),
     ("primaryContact", Str("")), ("address", Str("")), ("isActive", Bool(true))]
  }

  /** A blank customer is a prospect awaiting approval, active and created
    * today. */
  lemma EmptyCustomerDefaults(today: string)
    ensures Get(EmptyCustomer(today), "accountType") == Str("Prospect")
    ensures Get(EmptyCustomer(today), "customerStatus") == Str("Prospect")
    ensures Get(EmptyCustomer(today), "approvalStatus") == Str("Pending")
    ensures Get(EmptyCustomer(today), "dateCreated") == Str(today)
    ensures Get(EmptyCustomer(today), "isActive") == Bool(true)
  {
    EmptyCustomerTypes(today);
    EmptyCustomerApproval(today);
    GetFirst(EmptyCustomer(today), 20, "isActive");
  }

  lemma EmptyCustomerTypes(today: string)
    ensures Get(EmptyCustomer(today), "accountType") == Str("Prospect")
    ensures Get(EmptyCustomer(today), "customerStatus") == Str("Prospect")
  {
    GetFirst(EmptyCustomer(today), 9, "accountType");
    GetFirst(EmptyCustomer(today), 10, "customerStatus");
  }

  lemma EmptyCustomerApproval(today: string)
    ensures Get(EmptyCustomer(today), "approvalStatus") == Str("Pending")
    ensures Get(EmptyCustomer(today), "dateCreated") == Str(today)
  {
    GetFirst(EmptyCustomer(today), 11, "approvalStatus");
    GetFirst(EmptyCustomer(today), 12, "dateCreated");
  }

  /** A blank customer cannot be saved until its required fields are filled in. */
  lemma EmptyCustomerInvalid(items: seq<JsValue>, current: Option<JsValue>, today: string)
    ensures ValidateForm(items, EmptyCustomer(today), current) == Some(RequiredMessage)
  {
    assert !Truthy(Get(EmptyCustomer(today), RequiredFields[0]));
  }

  /** The value of the first entry with the key. */
  lemma {:induction false} GetFirst(r: Record, i: nat, key: string)
    requires i < |r| && r[i].0 == key
    requires forall j :: 0 <= j < i ==> r[j].0 != key
    ensures Get(r, key) == r[i].1
  {
    if i > 0 {
      GetFirst(r[1..], i - 1, key);
    }
  }

  /** `{ ...old, ...form }`: the customer's properties overwritten by the form's. */
  function Merge(customer: JsValue, form: Record): JsValue {
    Obj(Assign(Entries(customer), form))
  }

  /** After the merge each form field has the form's value, every other
    * field keeps the customer's, and no field is lost. */
  lemma MergeFields(customer: JsValue, form: Record, key: string)
    requires customer.Obj? && UniqueKeys(form)
    ensures Prop(Merge(customer, form), key) == if key in Keys(form) then Get(form, key) else Prop(customer, key)
    ensures forall k :: k in Keys(Entries(Merge(customer, form))) <==> k in Keys(Entries(customer)) || k in Keys(form)
  {
    var merged := Assign(Entries(customer), form);
    AssignGet(Entries(customer), form, key);
    assert Entries(Merge(customer, form)) == merged;
    assert Prop(Merge(customer, form), key) == Get(merged, key);
  }

  /** A new customer: the form with `id` set to the creation time. */
  function Created(form: Record, now: nat): JsValue {
    Obj(Put(form, "id", Num(now as real, NatToString(now))))
  }

  /** A created customer carries the time as its id and the form's values
    * in every other field. */
  lemma CreatedFields(form: Record, now: nat, key: string)
    ensures IdOf(Created(form, now)) == Num(now as real, NatToString(now))
    ensures key != "id" ==> Prop(Created(form, now), key) == Get(form, key)
  {
    GetPut(form, "id", Num(now as real, NatToString(now)), key);
  }

  // ---------------------------------------------------------------------
  // The screen's state

  class Manager {
    var data: seq<JsValue>
    var currentView: View
    var currentItem: Option<JsValue>
    var originalItem: Option<JsValue>
    var hasUnsavedChanges: bool
    var searchTerm: string

    /** The constructor: when the container exists, init() loads the sample
      * customers (given as `sample`) and renders the list; without it the
      * constructor returns early and the list stays empty. */
    constructor(containerFound: bool, sample: seq<JsValue>)
      ensures data == (if containerFound then sample else [])
      ensures currentView == ListView && currentItem.None? && originalItem.None?
      ensures !hasUnsavedChanges && searchTerm == []
    {
      data := if containerFound then sample else [];
      currentView := ListView;
      currentItem := None;
      originalItem := None;
      hasUnsavedChanges := false;
      searchTerm := [];
    }

    /** The list the grid shows. */
    function Filtered(accountType: string, companyType: string, status: string): Result<seq<JsValue>, string>
      reads this
    {
      FilteredData(data, searchTerm, accountType, companyType, status)
    }

    method NewCustomer()
      modifies this
      ensures currentItem.None? && originalItem.None? && !hasUnsavedChanges && currentView == FormView
      ensures data == old(data) && searchTerm == old(searchTerm)
    {
      currentItem := None;
      originalItem := None;
      hasUnsavedChanges := false;
      currentView := FormView;
    }

    /** Opens the first customer with the id; an unknown id opens an empty
      * form (the lookup yields undefined). Rendering the form keeps a copy
      * of the customer for undo. */
    method EditCustomer(id: JsValue)
      modifies this
      ensures currentItem.Some? <==> HasId(data, id)
      ensures currentItem.Some? ==> currentItem.value == data[FindIndex(data, id).value]
      ensures originalItem == currentItem
      ensures !hasUnsavedChanges && currentView == FormView
      ensures data == old(data) && searchTerm == old(searchTerm)
    {
      var i := FindIndex(data, id);
      currentItem := if i.Some? then Some(data[i.value]) else None;
      // attachFormEventListeners, run by render() for the form view
      originalItem := currentItem;
      hasUnsavedChanges := false;
      currentView := FormView;
    }

    /** Removes every customer with the id, once a customer with it exists
      * and the user confirms; otherwise nothing changes. */
    method DeleteCustomer(id: JsValue, confirmed: bool)
      modifies this
      ensures HasId(old(data), id) && confirmed ==>
        data == WithoutId(old(data), id) &&
        forall x :: x in data <==> x in old(data) && !StrictEquals(IdOf(x), id)
      ensures !(HasId(old(data), id) && confirmed) ==> data == old(data)
      ensures currentView == old(currentView) && currentItem == old(currentItem) && originalItem == old(originalItem)
      ensures hasUnsavedChanges == old(hasUnsavedChanges) && searchTerm == old(searchTerm)
    {
      var i := FindIndex(data, id);
      if i.Some? && confirmed {
        var before := data;
        data := WithoutId(data, id);
        forall x | x in before && !StrictEquals(IdOf(x), id) ensures x in data {
          WithoutIdKeeps(before, id, x);
        }
      }
    }

    /** autoSave: an edited customer found by its id is merged with the form
      * in place; with nothing being edited the form, stamped with the time
      * as its id, is appended. It always reports success. */
    method AutoSave(form: Record, now: nat) returns (success: bool)
      modifies this
      ensures success && !hasUnsavedChanges
      ensures old(currentItem).Some? ==>
        var i := FindIndex(old(data), IdOf(old(currentItem).value));
        (i.None? ==> data == old(data)) &&
        (i.Some? ==> data == old(data)[i.value := Merge(old(data)[i.value], form)])
      ensures old(currentItem).None? ==> data == old(data) + [Created(form, now)]
      ensures currentView == old(currentView) && currentItem == old(currentItem) && originalItem == old(originalItem)
      ensures searchTerm == old(searchTerm)
    {
      if currentItem.Some? {
        var i := FindIndex(data, IdOf(currentItem.value));
        if i.Some? {
          data := data[i.value := Merge(data[i.value], form)];
        }
      } else {
        data := data + [Created(form, now)];
      }
      hasUnsavedChanges := false;
      success := true;
    }

    method ShowList()
      modifies this
      ensures currentView == ListView && currentItem.None? && originalItem.None? && !hasUnsavedChanges
      ensures data == old(data) && searchTerm == old(searchTerm)
    {
      currentView := ListView;
      currentItem := None;
      originalItem := None;
      hasUnsavedChanges := false;
    }
  }
}
