/** FormulaEngine: the formula builder's expression editing (inserting a
  * variable, an operator or a function call at the cursor), the required
  * check and request of saving, duplicating a formula, and the status
  * badge of the formula list. */
module FormulaEngine {
  import opened Basics
  import opened JsValues
  import opened Identified

  // ---------------------------------------------------------------------
  // Editing the expression

  /** `text.slice(0, pos) + piece + text.slice(pos)`; slice clamps a
    * position past the end to the end. */
  function Splice(text: string, pos: nat, piece: string): (r: string)
    ensures |r| == |text| + |piece|
    ensures pos <= |text| ==>
      r[..pos] == text[..pos] && r[pos..pos + |piece|] == piece && r[pos + |piece|..] == text[pos..]
  {
    var p := if pos <= |text| then pos else |text|;
    var r := text[..p] + piece + text[p..];
    assert r[..p] == text[..p] && r[p..p + |piece|] == piece && r[p + |piece|..] == text[p..];
    r
  }

  /** The text insertVariable inserts: the name in braces. */
  function VariableText(name: string): string { "{" + name + "}" }

  /** The text insertOperator inserts: the operator between spaces. */
  function OperatorText(op: string): string { " " + op + " " }

  /** The text insertFunction inserts: the name and an empty argument list. */
  function FunctionText(name: string): string { name + "()" }

  /** After a variable is inserted the cursor sits right after its closing
    * brace: the text before it ends with the braced name, the text after
    * it is the text that followed the cursor before. */
  lemma VariableCursor(text: string, pos: nat, name: string)
    requires pos <= |text|
    ensures pos + |name| + 2 <= |Splice(text, pos, VariableText(name))|
    ensures Splice(text, pos, VariableText(name))[..pos + |name| + 2] == text[..pos] + "{" + name + "}"
    ensures Splice(text, pos, VariableText(name))[pos + |name| + 2..] == text[pos..]
  {
    var r := Splice(text, pos, VariableText(name));
    assert r[..pos + |name| + 2] == r[..pos] + r[pos..pos + |name| + 2];
  }

  /** After an operator is inserted the cursor sits after the space that
    * follows it. */
  lemma OperatorCursor(text: string, pos: nat, op: string)
    requires pos <= |text|
    ensures pos + |op| + 2 <= |Splice(text, pos, OperatorText(op))|
    ensures Splice(text, pos, OperatorText(op))[..pos + |op| + 2] == text[..pos] + " " + op + " "
    ensures Splice(text, pos, OperatorText(op))[pos + |op| + 2..] == text[pos..]
  {
    var r := Splice(text, pos, OperatorText(op));
    assert r[..pos + |op| + 2] == r[..pos] + r[pos..pos + |op| + 2];
  }

  /** After a function is inserted the cursor sits between its parentheses. */
  lemma FunctionCursor(text: string, pos: nat, name: string)
    requires pos <= |text|
    ensures pos + |name| + 1 < |Splice(text, pos, FunctionText(name))|
    ensures Splice(text, pos, FunctionText(name))[..pos + |name| + 1] == text[..pos] + name + "("
    ensures Splice(text, pos, FunctionText(name))[pos + |name| + 1..] == ")" + text[pos..]
  {
    var r := Splice(text, pos, FunctionText(name));
    var piece := FunctionText(name);
    assert r[..pos + |name| + 1] == r[..pos] + r[pos..pos + |name| + 1];
    assert r[pos..pos + |name| + 1] == piece[..|name| + 1];
    assert r[pos + |name| + 1..] == r[pos + |name| + 1..pos + |piece|] + r[pos + |piece|..];
    assert r[pos + |name| + 1..pos + |piece|] == piece[|name| + 1..];
  }

  // ---------------------------------------------------------------------
  // Saving

  /** The request saveFormula sends. */
  datatype Request = Request(endpoint: string, httpMethod: string, body: Record)

  const RequiredMessage := "Please fill in all required fields."

  /** The formula data saveFormula builds from the form; `id` comes from
    * the formula being edited (undefined when creating). */
  function FormulaData(current: Option<JsValue>, name: string, stockItemId: string, expression: string, description: string)
    : Record
  {
    [("id", if current.Some? then Prop(current.value, "id") else Undefined),
     ("name", Str(name)), ("stockItemId", Str(stockItemId)), ("expression", Str(expression)),
     ("description", Str(description)), ("status", Str("active"))]
  }

  /** saveFormula up to the API call: the warning when the name, stock item
    * or expression is empty; otherwise a PUT to the formula being edited,
    * or a POST creating one. */
  function SaveRequest(current: Option<JsValue>, name: string, stockItemId: string, expression: string, description: string)
    : (r: Result<Request, string>)
    ensures r.Err? <==> name == [] || stockItemId == [] || expression == []
    ensures r.Err? ==> r.error == RequiredMessage
    ensures r.Ok? ==> (r.value.httpMethod == "PUT" <==> current.Some?)
    ensures r.Ok? ==> (r.value.httpMethod == "POST" <==> current.None?)
  {
    if name == [] || stockItemId == [] || expression == [] then Err(RequiredMessage)
    else
      var data := FormulaData(current, name, stockItemId, expression, description);
      if current.Some? then Ok(Request("/formulas/" + ToStr(Prop(current.value, "id")), "PUT", data))
      else Ok(Request("/formulas", "POST", data))
  }

  /** Saving a duplicate (whose id is null) sends a PUT to `/formulas/null`
    * instead of creating a new formula. */
  lemma DuplicateSaveTargetsNull(formula: JsValue, createdDate: string, name: string, stockItemId: string, expression: string, description: string)
    requires formula.Obj?
    requires name != [] && stockItemId != [] && expression != []
    ensures SaveRequest(Some(Duplicate(formula, createdDate)), name, stockItemId, expression, description).value.endpoint == "/formulas/null"
    ensures SaveRequest(Some(Duplicate(formula, createdDate)), name, stockItemId, expression, description).value.httpMethod == "PUT"
  {
    DuplicateFields(formula, createdDate, "id");
  }

  /** saveFormula as evidently intended: a formula without an id (a new or a
    * duplicated one) is created with a POST. */
  function SaveRequestFixed(current: Option<JsValue>, name: string, stockItemId: string, expression: string, description: string)
    : (r: Result<Request, string>)
    ensures r.Err? <==> name == [] || stockItemId == [] || expression == []
    ensures r.Err? ==> r.error == RequiredMessage
    ensures r.Ok? ==> (r.value.httpMethod == "PUT" <==> current.Some? && Truthy(Prop(current.value, "id")))
  {
    if name == [] || stockItemId == [] || expression == [] then Err(RequiredMessage)
    else
      var data := FormulaData(current, name, stockItemId, expression, description);
      if current.Some? && Truthy(Prop(current.value, "id")) then
        Ok(Request("/formulas/" + ToStr(Prop(current.value, "id")), "PUT", data))
      else Ok(Request("/formulas", "POST", data))
  }

  /** With the fix, saving a duplicate creates a formula, and saving a
    * formula that has an id updates that formula as before. */
  lemma FixedSaveOfDuplicate(formula: JsValue, createdDate: string, name: string, stockItemId: string, expression: string, description: string)
    requires formula.Obj?
    requires name != [] && stockItemId != [] && expression != []
    ensures SaveRequestFixed(Some(Duplicate(formula, createdDate)), name, stockItemId, expression, description).value.endpoint == "/formulas"
    ensures SaveRequestFixed(Some(Duplicate(formula, createdDate)), name, stockItemId, expression, description).value.httpMethod == "POST"
    ensures Truthy(Prop(formula, "id")) ==>
      SaveRequestFixed(Some(formula), name, stockItemId, expression, description) ==
      SaveRequest(Some(formula), name, stockItemId, expression, description)
  {
    DuplicateFields(formula, createdDate, "id");
  }

  // ---------------------------------------------------------------------
  // Duplicating

  /** The properties a duplicate overrides, in the order written. */
  function DuplicateOverrides(formula: JsValue, createdDate: string): Record {
    [("id", Null), ("name", Str(ToStr(Prop(formula, "name")) + " (Copy)")),
     ("createdDate", Str(createdDate)), ("lastUsed", Null)]
  }

  /** `{ ...formula, id: null, name: `${name} (Copy)`, createdDate, lastUsed: null }`. */
  function Duplicate(formula: JsValue, createdDate: string): JsValue {
    Obj(Assign(Entries(formula), DuplicateOverrides(formula, createdDate)))
  }

  /** A duplicate has a null id and lastUsed, the name with " (Copy)"
    * appended, the new creation date, and every other property of the
    * original. */
  lemma DuplicateFields(formula: JsValue, createdDate: string, key: string)
    requires formula.Obj?
    ensures Prop(Duplicate(formula, createdDate), "id") == Null
    ensures Prop(Duplicate(formula, createdDate), "lastUsed") == Null
    ensures Prop(Duplicate(formula, createdDate), "name") == Str(ToStr(Prop(formula, "name")) + " (Copy)")
    ensures Prop(Duplicate(formula, createdDate), "createdDate") == Str(createdDate)
    ensures key !in ["id", "name", "createdDate", "lastUsed"] ==>
      Prop(Duplicate(formula, createdDate), key) == Prop(formula, key)
  {
    var o := DuplicateOverrides(formula, createdDate);
    assert Keys(o) == ["id", "name", "createdDate", "lastUsed"];
    assert UniqueKeys(o);
    AssignGet(Entries(formula), o, key);
    AssignGet(Entries(formula), o, "id");
    AssignGet(Entries(formula), o, "lastUsed");
    AssignGet(Entries(formula), o, "name");
    AssignGet(Entries(formula), o, "createdDate");
    GetAt(o, 2);
    GetAt(o, 3);
  }

  // ---------------------------------------------------------------------
  // The list's status badge

  datatype Badge = Badge(colour: string, caption: string)

  /** getFormulaStatusBadge. */
  function StatusBadge(status: JsValue): (b: Badge) {
    if StrictEquals(status, Str("active")) then Badge("bg-success", "Active")
    else if StrictEquals(status, Str("inactive")) then Badge("bg-secondary", "Inactive")
    else if StrictEquals(status, Str("error")) then Badge("bg-danger", "Error")
    else Badge("bg-warning", "Unknown")
  }

  /** Each of the three known statuses has its own badge; every other value,
    * including a missing status, shows "Unknown". */
  lemma StatusBadgeCases(status: JsValue)
    ensures StatusBadge(status).caption == "Unknown" <==> status !in {Str("active"), Str("inactive"), Str("error")}
    ensures StatusBadge(Str("active")) != StatusBadge(Str("inactive"))
    ensures StatusBadge(Str("active")) != StatusBadge(Str("error"))
    ensures StatusBadge(Str("inactive")) != StatusBadge(Str("error"))
  {
    if StrictEquals(status, Str("active")) || StrictEquals(status, Str("inactive")) || StrictEquals(status, Str("error")) {
      assert status.Str?;
    }
  }

  // ---------------------------------------------------------------------
  // The engine

  class Engine {
    var formulas: seq<JsValue>
    var currentFormula: Option<JsValue>
    /** The builder form's fields. */
    var formName: string
    var formStockItem: string
    var expression: string
    var formDescription: string
    /** The expression input's cursor. */
    var cursor: nat

    /** The cursor lies within the expression. */
    predicate Valid()
      reads this
    {
      cursor <= |expression|
    }

    constructor()
      ensures Valid()
      ensures formulas == [] && currentFormula.None? && expression == [] && cursor == 0
    {
      formulas := [];
      currentFormula := None;
      formName := [];
      formStockItem := [];
      expression := [];
      formDescription := [];
      cursor := 0;
    }

    method InsertVariable(name: string)
      requires Valid()
      modifies this
      ensures Valid()
      ensures expression == Splice(old(expression), old(cursor), VariableText(name))
      ensures cursor == old(cursor) + |name| + 2
      ensures formulas == old(formulas) && currentFormula == old(currentFormula)
      ensures formName == old(formName) && formStockItem == old(formStockItem) && formDescription == old(formDescription)
    {
      expression := Splice(expression, cursor, VariableText(name));
      cursor := cursor + |name| + 2;
    }

    method InsertOperator(op: string)
      requires Valid()
      modifies this
      ensures Valid()
      ensures expression == Splice(old(expression), old(cursor), OperatorText(op))
      ensures cursor == old(cursor) + |op| + 2
      ensures formulas == old(formulas) && currentFormula == old(currentFormula)
      ensures formName == old(formName) && formStockItem == old(formStockItem) && formDescription == old(formDescription)
    {
      expression := Splice(expression, cursor, OperatorText(op));
      cursor := cursor + |op| + 2;
    }

    method InsertFunction(name: string)
      requires Valid()
      modifies this
      ensures Valid()
      ensures expression == Splice(old(expression), old(cursor), FunctionText(name))
      ensures cursor == old(cursor) + |name| + 1
      ensures formulas == old(formulas) && currentFormula == old(currentFormula)
      ensures formName == old(formName) && formStockItem == old(formStockItem) && formDescription == old(formDescription)
    {
      expression := Splice(expression, cursor, FunctionText(name));
      cursor := cursor + |name| + 1;
    }

    /** openFormulaBuilder: a given formula fills the form (a missing or
      * empty property gives an empty field) and becomes the one being
      * edited; none clears the form. Setting the value puts the cursor at
      * its end. */
    method OpenFormulaBuilder(formula: Option<JsValue>)
      modifies this
      ensures Valid()
      ensures currentFormula == formula && formulas == old(formulas)
      ensures formula.Some? ==>
        formName == ToStr(Or(Prop(formula.value, "name"), Str(""))) &&
        formStockItem == ToStr(Or(Prop(formula.value, "stockItemId"), Str(""))) &&
        expression == ToStr(Or(Prop(formula.value, "expression"), Str(""))) &&
        formDescription == ToStr(Or(Prop(formula.value, "description"), Str("")))
      ensures formula.None? ==> formName == [] && formStockItem == [] && expression == [] && formDescription == []
      ensures cursor == |expression|
    {
      if formula.Some? {
        var f := formula.value;
        formName := ToStr(Or(Prop(f, "name"), Str("")));
        formStockItem := ToStr(Or(Prop(f, "stockItemId"), Str("")));
        expression := ToStr(Or(Prop(f, "expression"), Str("")));
        formDescription := ToStr(Or(Prop(f, "description"), Str("")));
      } else {
        formName := [];
        formStockItem := [];
        expression := [];
        formDescription := [];
      }
      currentFormula := formula;
      cursor := |expression|;
    }

    /** duplicateFormula: opens the builder on a copy of the first formula
      * with the id; an unknown id does nothing. */
    method DuplicateFormula(formulaId: JsValue, createdDate: string)
      modifies this
      requires Valid()
      ensures Valid()
      ensures formulas == old(formulas)
      ensures !HasId(formulas, formulaId) ==>
        currentFormula == old(currentFormula) && expression == old(expression) && cursor == old(cursor) &&
        formName == old(formName) && formStockItem == old(formStockItem) && formDescription == old(formDescription)
      ensures HasId(formulas, formulaId) ==>
        var copy := Duplicate(formulas[FindIndex(formulas, formulaId).value], createdDate);
        currentFormula == Some(copy) &&
        formName == ToStr(Or(Prop(copy, "name"), Str(""))) &&
        formStockItem == ToStr(Or(Prop(copy, "stockItemId"), Str(""))) &&
        expression == ToStr(Or(Prop(copy, "expression"), Str(""))) &&
        formDescription == ToStr(Or(Prop(copy, "description"), Str(""))) &&
        cursor == |expression|
    {
      var i := FindIndex(formulas, formulaId);
      if i.Some? {
        OpenFormulaBuilder(Some(Duplicate(formulas[i.value], createdDate)));
      }
    }
  }
}
