/** ProductsSchema: the product record's field definitions, the check of one
  * field and of a whole record, the clean-up of a submitted record and the
  * blank record. */
module ProductsSchema {
  import opened Basics
  import opened Text
  import opened JsValues

  datatype Kind = StringField | TextField | NumberField | BooleanField | SelectField | DatetimeField

  /** The two character-class patterns the schema uses, each `^[...]+$`. */
  datatype Pattern = NamePattern | SkuPattern

  datatype FieldDef = FieldDef(
    name: string, kind: Kind, required: bool, readOnly: bool, caption: string,
    maxLength: Option<nat>, min: Option<nat>,
    pattern: Option<Pattern>, priceRule: bool,
    options: Option<Choices>, defaultValue: Option<JsValue>)

  /** The two option lists. */
  datatype Choices = CategoryChoices | UnitChoices

  const Categories: seq<string> :=
    ["Roofing Materials", "Guttering", "Insulation", "Hardware", "Tools", "Safety Equipment", "Fasteners", "Sealants"]

  const Units: seq<string> :=
    ["Each", "Metre", "Square Metre", "Cubic Metre", "Kilogram", "Litre", "Kit", "Roll", "Sheet"]

  function ChoiceValues(c: Choices): seq<string> {
    match c
    case CategoryChoices => Categories
    case UnitChoices => Units
  }

  /** A unit option as the schema stores it: a `{value, label}` object. */
  function UnitOption(u: string): JsValue {
    Obj([("value", Str(u)), ("label", Str(u))])
  }

  /** The options as stored: the categories as plain strings, the units as
    * value/label objects. */
  function StoredOptions(c: Choices): seq<JsValue> {
    match c
    case CategoryChoices => seq(|Categories|, k requires 0 <= k < |Categories| => Str(Categories[k]))
    case UnitChoices => seq(|Units|, k requires 0 <= k < |Units| => UnitOption(Units[k]))
  }

  /** `typeof opt === 'string' ? opt : opt.value`. */
  function OptionValue(opt: JsValue): JsValue {
    if opt.Str? then opt else Prop(opt, "value")
  }

  /** Validation maps the stored options to their values: these are exactly
    * the values it accepts. */
  lemma StoredOptionValues(c: Choices)
    ensures |StoredOptions(c)| == |ChoiceValues(c)|
    ensures forall k :: 0 <= k < |StoredOptions(c)| ==> OptionValue(StoredOptions(c)[k]) == Str(ChoiceValues(c)[k])
  {
    forall k | 0 <= k < |StoredOptions(c)|
      ensures OptionValue(StoredOptions(c)[k]) == Str(ChoiceValues(c)[k])
    {
      if c.UnitChoices? {
        var u := Units[k];
        assert Entries(UnitOption(u)) == [("value", Str(u)), ("label", Str(u))];
        assert Get([("value", Str(u)), ("label", Str(u))], "value") == Str(u);
      }
    }
  }

  /** The message a failed pattern test reports. */
  function PatternMessage(p: Pattern): string {
    match p
    case NamePattern => "Product name can only contain letters, numbers, spaces, hyphens, underscores, and parentheses"
    case SkuPattern => "SKU should contain only uppercase letters, numbers, and hyphens"
  }

  const IdField := FieldDef("id", NumberField, false, true, "Product ID", None, None, None, false, None, None)
  const NameField := FieldDef("name", StringField, true, false, "Product Name", Some(255), None,
                              Some(NamePattern), false, None, None)
  const SkuField := FieldDef("sku", StringField, false, false, "SKU (Stock Keeping Unit)", Some(50), None,
                             Some(SkuPattern), false, None, None)
  const PriceField := FieldDef("price", NumberField, true, false, "Price (ZAR)", None, Some(0), None, true, None, None)
  const DescriptionField := FieldDef("description", TextField, false, false, "Description", Some(1000), None, None,
                                     false, None, None)
  const CategoryField := FieldDef("category", StringField, false, false, "Category", Some(100), None, None, false,
                                  Some(CategoryChoices), None)
  const UnitField := FieldDef("unitOfMeasure", SelectField, true, false, "Unit of Measure", None, None, None, false,
                              Some(UnitChoices), Some(Str("Each")))
  const ActiveField := FieldDef("active", BooleanField, false, false, "Active Product", None, None, None, false, None,
                                Some(Bool(true)))
  const CreatedField := FieldDef("createdDate", DatetimeField, false, true, "Created Date", None, None, None, false,
                                 None, None)
  const ModifiedField := FieldDef("modifiedDate", DatetimeField, false, true, "Modified Date", None, None, None, false,
                                  None, None)

  /** The fields, in declaration order. */
  const Schema: seq<FieldDef> := [IdField, NameField, SkuField, PriceField, DescriptionField, CategoryField,
                                  UnitField, ActiveField, CreatedField, ModifiedField]

  /** The business rule switch `requireSkuForActiveProducts`. */
  const RequireSkuForActiveProducts := false

  function Names(fs: seq<FieldDef>): seq<string> {
    seq(|fs|, k requires 0 <= k < |fs| => fs[k].name)
  }

  lemma SchemaNamesUnique()
    ensures forall i, j :: 0 <= i < j < |Schema| ==> Schema[i].name != Schema[j].name
  {}

  /** getField: the definition under a name. */
  function FindField(name: string): (r: Option<FieldDef>)
    ensures r.Some? <==> name in Names(Schema)
    ensures r.Some? ==> r.value in Schema && r.value.name == name
  {
    FindInFinds(Schema, name);
    FindIn(Schema, name)
  }

  function FindIn(fs: seq<FieldDef>, name: string): Option<FieldDef> {
    if fs == [] then None
    else if fs[0].name == name then Some(fs[0])
    else FindIn(fs[1..], name)
  }

  /** The first definition under the name, if there is one. */
  lemma {:induction false} FindInFinds(fs: seq<FieldDef>, name: string)
    ensures FindIn(fs, name).Some? <==> name in Names(fs)
    ensures FindIn(fs, name).Some? ==> FindIn(fs, name).value in fs && FindIn(fs, name).value.name == name
  {
    if fs != [] {
      assert Names(fs) == [fs[0].name] + Names(fs[1..]);
      if fs[0].name != name {
        FindInFinds(fs[1..], name);
      }
    }
  }

  /** A name found in the schema gives the definition at its position. */
  lemma FindFieldAt(k: nat)
    requires k < |Schema|
    ensures FindField(Schema[k].name) == Some(Schema[k])
  {
    SchemaNamesUnique();
    assert Names(Schema)[k] == Schema[k].name;
  }

  /** The fields other definitions name, found under their names. */
  lemma NamedFields()
    ensures FindField("name") == Some(NameField) && FindField("price") == Some(PriceField)
    ensures FindField("category") == Some(CategoryField) && FindField("unitOfMeasure") == Some(UnitField)
  {
    SchemaAt();
    FindFieldAt(1);
    FindFieldAt(3);
    FindFieldAt(5);
    FindFieldAt(6);
  }

  lemma SchemaAt()
    ensures Schema[1] == NameField && Schema[3] == PriceField && Schema[5] == CategoryField && Schema[6] == UnitField
    ensures Schema[7] == ActiveField && Schema[8] == CreatedField
  {}

  // ---------------------------------------------------------------------
  // One field

  /** null, undefined or ''. */
  predicate Empty(v: JsValue) {
    v.Null? || v.Undefined? || v == Str("")
  }

  predicate PatternChar(p: Pattern, c: char) {
    match p
    case NamePattern => IsLetter(c) || IsDigit(c) || IsSpace(c) || c == '-' || c == '_' || c == '(' || c == ')'
    case SkuPattern => IsUpper(c) || IsDigit(c) || c == '-'
  }

  /** `^[...]+$`: at least one character, every one in the class. */
  predicate PatternTest(p: Pattern, s: string) {
    |s| > 0 && forall k :: 0 <= k < |s| ==> PatternChar(p, s[k])
  }

  /** The price rule: negative or above 999999.99 is refused; a value that
    * does not convert to a number compares false both ways. */
  function PriceErrors(v: JsValue): seq<string> {
    match ToNumber(v)
    case None => []
    case Some(n) =>
      if n < 0.0 then ["Price cannot be negative"]
      else if n > 999999.99 then ["Price cannot exceed R999,999.99"]
      else []
  }

  /** The type-specific checks. */
  function TypeErrors(f: FieldDef, v: JsValue): seq<string> {
    match f.kind
    case StringField => TextErrors(f, v)
    case TextField => TextErrors(f, v)
    case NumberField => NumberErrors(f, ParseFloat(v))
    case BooleanField => if v.Bool? then [] else [f.caption + " must be true or false"]
    case SelectField =>
      if f.options.Some? && !(v.Str? && v.s in ChoiceValues(f.options.value))
      then [f.caption + " must be one of: " + JoinWith(ChoiceValues(f.options.value), ", ")] else []
    case DatetimeField => []
  }

  /** The number checks on `parseFloat(value)` (None is NaN). */
  function NumberErrors(f: FieldDef, parsed: Option<real>): (r: seq<string>)
    ensures |r| <= 1
    ensures r == [] <==> parsed.Some? && (f.min.Some? ==> parsed.value >= f.min.value as real)
  {
    match parsed
    case None => [f.caption + " must be a valid number"]
    case Some(x) =>
      if f.min.Some? && x < f.min.value as real
      then [f.caption + " cannot be less than " + NatToString(f.min.value)] else []
  }

  function TextErrors(f: FieldDef, v: JsValue): seq<string> {
    if !v.Str? then [f.caption + " must be a text value"]
    else
      (if f.maxLength.Some? && f.maxLength.value != 0 && |v.s| > f.maxLength.value
       then [f.caption + " cannot exceed " + NatToString(f.maxLength.value) + " characters"] else []) +
      (if f.pattern.Some? && !PatternTest(f.pattern.value, v.s) then [PatternMessage(f.pattern.value)] else [])
  }

  /** Every message a present-or-required value collects, in order. */
  function FieldErrors(f: FieldDef, v: JsValue): seq<string> {
    (if f.required && Empty(v) then [f.caption + " is required"] else []) +
    TypeErrors(f, v) +
    (if f.priceRule then PriceErrors(v) else [])
  }

  datatype FieldResult = FieldResult(valid: bool, error: Option<string>, errors: seq<string>)

  /** The checks of a known field. */
  function Check(f: FieldDef, v: JsValue): (r: FieldResult)
    ensures r.valid <==> r.errors == []
    ensures r.errors != [] ==> r.error == Some(r.errors[0])
    ensures !f.required && Empty(v) ==> r == FieldResult(true, None, [])
    ensures f.required && Empty(v) ==> !r.valid && r.error == Some(f.caption + " is required")
    ensures f.required || !Empty(v) ==> r.errors == FieldErrors(f, v)
  {
    if !f.required && Empty(v) then FieldResult(true, None, [])
    else
      var errors := FieldErrors(f, v);
      FieldResult(errors == [], if errors == [] then None else Some(errors[0]), errors)
  }

  /** validateField. */
  function ValidateField(name: string, v: JsValue): (r: FieldResult)
    ensures FindField(name).None? ==> !r.valid && r.error == Some("Unknown field: " + name)
    ensures FindField(name).Some? ==> r == Check(FindField(name).value, v)
    ensures !r.valid ==> r.error.Some?
  {
    match FindField(name)
    case None => FieldResult(false, Some("Unknown field: " + name), [])
    case Some(f) => Check(f, v)
  }

  /** An empty required field is refused, first with "... is required";
    * an empty optional field is accepted with nothing else checked. */
  lemma EmptyValues(name: string, v: JsValue)
    requires FindField(name).Some? && Empty(v)
    ensures var f := FindField(name).value;
      f.required ==> !ValidateField(name, v).valid && ValidateField(name, v).error == Some(f.caption + " is required")
    ensures !FindField(name).value.required ==> ValidateField(name, v) == FieldResult(true, None, [])
  {}

  /** A string longer than the field's maximum length is refused. */
  lemma TooLongRefused(f: FieldDef, s: string)
    requires f.kind == StringField || f.kind == TextField
    requires f.maxLength.Some? && f.maxLength.value != 0 && |s| > f.maxLength.value
    ensures !Check(f, Str(s)).valid
    ensures f.caption + " cannot exceed " + NatToString(f.maxLength.value) + " characters" in Check(f, Str(s)).errors
  {
    assert !Empty(Str(s));
    var typed := TypeErrors(f, Str(s));
    assert typed[0] == f.caption + " cannot exceed " + NatToString(f.maxLength.value) + " characters";
    var req: seq<string> := if f.required && Empty(Str(s)) then [f.caption + " is required"] else [];
    assert req == [];
    assert FieldErrors(f, Str(s))[|req|] == typed[0];
  }

  /** How many messages a checked value collects. */
  lemma FieldErrorsCount(f: FieldDef, v: JsValue)
    ensures |FieldErrors(f, v)| ==
      (if f.required && Empty(v) then 1 else 0) + |TypeErrors(f, v)| + (if f.priceRule then |PriceErrors(v)| else 0)
  {}

  lemma PriceTypeErrors(n: real, text: string)
    requires ParseFloatPrefix(text) == Some(n)
    ensures TypeErrors(PriceField, Num(n, text)) == [] <==> n >= 0.0
  {
    var v := Num(n, text);
    NumberText(n, text);
    assert TypeErrors(PriceField, v) == NumberErrors(PriceField, Some(n));
  }

  lemma PriceRuleErrors(n: real, text: string)
    ensures PriceErrors(Num(n, text)) == [] <==> 0.0 <= n <= 999999.99
  {
    assert ToNumber(Num(n, text)) == Some(n);
  }

  /** The price checks on a number whose text reads back as its value. */
  lemma PriceCheck(n: real, text: string)
    requires ParseFloatPrefix(text) == Some(n)
    ensures Check(PriceField, Num(n, text)).valid <==> 0.0 <= n <= 999999.99
  {
    PriceTypeErrors(n, text);
    PriceRuleErrors(n, text);
    FieldErrorsCount(PriceField, Num(n, text));
  }

  /** A number whose text reads back as its value passes the price field
    * exactly when it lies between 0 and 999999.99. */
  lemma PriceValidIff(n: real, text: string)
    requires ParseFloatPrefix(text) == Some(n)
    ensures ValidateField("price", Num(n, text)).valid <==> 0.0 <= n <= 999999.99
  {
    NamedFields();
    PriceCheck(n, text);
  }

  lemma UnitCheck(v: JsValue)
    ensures Check(UnitField, v).valid <==> v.Str? && v.s in Units
  {
    assert "" !in Units;
    assert TypeErrors(UnitField, v) == [] <==> v.Str? && v.s in Units;
    FieldErrorsCount(UnitField, v);
  }

  /** The unit of measure passes exactly when it is one of the listed units. */
  lemma UnitValidIff(v: JsValue)
    ensures ValidateField("unitOfMeasure", v).valid <==> v.Str? && v.s in Units
  {
    NamedFields();
    UnitCheck(v);
  }

  /** The name passes exactly when it is non-empty, at most 255 characters
    * and made of the allowed characters only. */
  lemma NameValidIff(s: string)
    ensures ValidateField("name", Str(s)).valid <==> 0 < |s| <= 255 && PatternTest(NamePattern, s)
  {
    NamedFields();
    RequiredTextValidIff(NameField, s);
  }

  /** A required text field with a positive maximum length and a pattern
    * passes a string exactly when the string is non-empty, fits and
    * matches. */
  lemma RequiredTextValidIff(f: FieldDef, s: string)
    requires f.kind == StringField && f.required && !f.priceRule
    requires f.maxLength.Some? && f.maxLength.value != 0 && f.pattern.Some?
    ensures Check(f, Str(s)).valid <==> 0 < |s| <= f.maxLength.value && PatternTest(f.pattern.value, s)
  {
    if s == [] {
      assert Empty(Str(s));
    } else {
      assert Str(s) != Str("");
      assert FieldErrors(f, Str(s)) == TextErrors(f, Str(s));
    }
  }

  // ---------------------------------------------------------------------
  // A whole record

  /** A field's check on a record: None when it passes, else its first message. */
  function Outcome(data: Record, f: FieldDef): (o: Option<string>)
    ensures o.None? <==> ValidateField(f.name, Get(data, f.name)).valid
  {
    var r := ValidateField(f.name, Get(data, f.name));
    if r.valid then None else r.error
  }

  /** The error map after checking `fs` in order with `outcome`. */
  function ErrorMap(fs: seq<FieldDef>, outcome: FieldDef -> Option<string>): (r: seq<(string, string)>)
    ensures forall k :: k in Keys(r) ==> k in Names(fs)
    decreases |fs|
  {
    if fs == [] then []
    else
      var init := fs[..|fs| - 1];
      var f := fs[|fs| - 1];
      var prev := ErrorMap(init, outcome);
      assert forall k :: k in Names(init) ==> k in Names(fs) by {
        assert forall j :: 0 <= j < |init| ==> Names(init)[j] == Names(fs)[j];
      }
      match outcome(f)
      case None => prev
      case Some(e) =>
        KeysPut(prev, f.name, e);
        assert Names(fs)[|fs| - 1] == f.name;
        Put(prev, f.name, e)
  }

  /** How many of `fs` fail. */
  function FailCount(fs: seq<FieldDef>, outcome: FieldDef -> Option<string>): nat
    decreases |fs|
  {
    if fs == [] then 0
    else FailCount(fs[..|fs| - 1], outcome) + (if outcome(fs[|fs| - 1]).None? then 0 else 1)
  }

  predicate AllPass(fs: seq<FieldDef>, outcome: FieldDef -> Option<string>) {
    forall k :: 0 <= k < |fs| ==> outcome(fs[k]).None?
  }

  /** With distinct names, one error entry per failing field. */
  lemma {:induction false} ErrorsCountFailures(fs: seq<FieldDef>, outcome: FieldDef -> Option<string>)
    requires forall i, j :: 0 <= i < j < |fs| ==> fs[i].name != fs[j].name
    ensures |ErrorMap(fs, outcome)| == FailCount(fs, outcome)
    ensures FailCount(fs, outcome) == 0 <==> AllPass(fs, outcome)
    decreases |fs|
  {
    if fs != [] {
      var init := fs[..|fs| - 1];
      var f := fs[|fs| - 1];
      assert forall k :: 0 <= k < |init| ==> init[k] == fs[k];
      ErrorsCountFailures(init, outcome);
      var prev := ErrorMap(init, outcome);
      if outcome(f).Some? {
        assert f.name !in Names(init) by {
          forall j | 0 <= j < |init| ensures Names(init)[j] != f.name {
            assert init[j] == fs[j];
          }
        }
        PutNew(prev, f.name, outcome(f).value);
      }
      assert AllPass(fs, outcome) <==> AllPass(init, outcome) && outcome(f).None?;
    }
  }

  lemma SchemaErrorsCountFailures(outcome: FieldDef -> Option<string>)
    ensures |ErrorMap(Schema, outcome)| == FailCount(Schema, outcome)
    ensures FailCount(Schema, outcome) == 0 <==> AllPass(Schema, outcome)
  {
    SchemaNamesUnique();
    ErrorsCountFailures(Schema, outcome);
  }

  datatype Validation = Validation(valid: bool, errors: seq<(string, string)>, errorCount: nat)

  /** The field loop of validate: each field's outcome, in order, recorded
    * under the field's name when it fails. */
  method CollectErrors(fs: seq<FieldDef>, outcome: FieldDef -> Option<string>)
    returns (errors: seq<(string, string)>, isValid: bool)
    ensures errors == ErrorMap(fs, outcome)
    ensures isValid <==> AllPass(fs, outcome)
  {
    errors := [];
    isValid := true;
    var i := 0;
    while i < |fs|
      invariant 0 <= i <= |fs|
      invariant errors == ErrorMap(fs[..i], outcome)
      invariant isValid <==> AllPass(fs[..i], outcome)
    {
      var f := fs[i];
      assert fs[..i + 1][..i] == fs[..i];
      assert fs[..i + 1][i] == f;
      var o := outcome(f);
      if o.Some? {
        errors := Put(errors, f.name, o.value);
        isValid := false;
      }
      i := i + 1;
    }
    assert fs[..|fs|] == fs;
  }

  /** validate: every field in declaration order, then the business rule. */
  method Validate(data: Record) returns (r: Validation)
    ensures r.errors == ErrorMap(Schema, f => Outcome(data, f))
    ensures r.valid <==> AllPass(Schema, f => Outcome(data, f))
    ensures r.errorCount == |r.errors| == FailCount(Schema, f => Outcome(data, f))
    ensures r.valid <==> r.errorCount == 0
  {
    var outcome := f => Outcome(data, f);
    var errors, isValid := CollectErrors(Schema, outcome);
    if RequireSkuForActiveProducts && Truthy(Get(data, "active")) && !Truthy(Get(data, "sku")) {
      errors := Put(errors, "sku", "SKU is required for active products");
      isValid := false;
    }
    SchemaErrorsCountFailures(outcome);
    r := Validation(isValid, errors, |Keys(errors)|);
  }

  /** getRequiredFields. */
  function RequiredFields(): (r: seq<string>)
    ensures r == ["name", "price", "unitOfMeasure"]
  {
    SchemaRequired();
    RequiredOf(Schema)
  }

  function RequiredOf(fs: seq<FieldDef>): seq<string> {
    if fs == [] then []
    else (if fs[0].required then [fs[0].name] else []) + RequiredOf(fs[1..])
  }

  lemma RequiredOfStep(fs: seq<FieldDef>, k: nat)
    requires k < |fs|
    ensures RequiredOf(fs[k..]) == (if fs[k].required then [fs[k].name] else []) + RequiredOf(fs[k + 1..])
  {
    assert fs[k..][1..] == fs[k + 1..];
  }

  /** Which fields are required. */
  lemma SchemaFlags()
    ensures !Schema[0].required && !Schema[2].required && !Schema[4].required && !Schema[5].required
    ensures !Schema[7].required && !Schema[8].required && !Schema[9].required
    ensures Schema[1].required && Schema[1].name == "name" && Schema[3].required && Schema[3].name == "price"
    ensures Schema[6].required && Schema[6].name == "unitOfMeasure"
  {}

  /** The required names of ten definitions of which the second, fourth and
    * seventh are the required ones. */
  lemma RequiredOfTen(fs: seq<FieldDef>)
    requires |fs| == 10
    requires !fs[0].required && fs[1].required && !fs[2].required && fs[3].required && !fs[4].required
    requires !fs[5].required && fs[6].required && !fs[7].required && !fs[8].required && !fs[9].required
    ensures RequiredOf(fs) == [fs[1].name, fs[3].name, fs[6].name]
  {
    assert fs[10..] == [];
    RequiredOfStep(fs, 9);
    RequiredOfStep(fs, 8);
    RequiredOfStep(fs, 7);
    RequiredOfStep(fs, 6);
    RequiredOfStep(fs, 5);
    RequiredOfStep(fs, 4);
    RequiredOfStep(fs, 3);
    RequiredOfStep(fs, 2);
    RequiredOfStep(fs, 1);
    RequiredOfStep(fs, 0);
    assert fs[0..] == fs;
  }

  lemma SchemaRequired()
    ensures RequiredOf(Schema) == ["name", "price", "unitOfMeasure"]
  {
    SchemaFlags();
    RequiredOfTen(Schema);
  }

  /** getFieldOptions: a field's options as stored, none for a field
    * without options or an unknown name. */
  function FieldOptions(name: string): (r: seq<JsValue>)
    ensures FindField(name).None? ==> r == []
    ensures FindField(name).Some? && FindField(name).value.options.None? ==> r == []
    ensures FindField(name).Some? && FindField(name).value.options.Some? ==>
      r == StoredOptions(FindField(name).value.options.value)
  {
    match FindField(name)
    case Some(f) => if f.options.Some? then StoredOptions(f.options.value) else []
    case None => []
  }

  /** The unit of measure offers one `{value, label}` object per unit, each
    * labelled with its own value. */
  lemma UnitOptions()
    ensures |FieldOptions("unitOfMeasure")| == |Units|
    ensures forall k :: 0 <= k < |Units| ==> FieldOptions("unitOfMeasure")[k] == UnitOption(Units[k])
  {
    UnitStored();
    var r := StoredOptions(UnitChoices);
    assert FieldOptions("unitOfMeasure") == r;
  }

  lemma UnitStored()
    ensures FieldOptions("unitOfMeasure") == StoredOptions(UnitChoices)
  {
    NamedFields();
    assert FindField("unitOfMeasure") == Some(UnitField);
  }

  /** The category offers the category names as plain strings. */
  lemma CategoryOptions()
    ensures |FieldOptions("category")| == |Categories|
    ensures forall k :: 0 <= k < |Categories| ==> FieldOptions("category")[k] == Str(Categories[k])
  {
    CategoryStored();
    var r := StoredOptions(CategoryChoices);
    assert FieldOptions("category") == r;
  }

  lemma CategoryStored()
    ensures FieldOptions("category") == StoredOptions(CategoryChoices)
  {
    NamedFields();
    assert FindField("category") == Some(CategoryField);
  }

  // ---------------------------------------------------------------------
  // Clean-up

  /** One value converted to its field's type; `numberText` is String() of a
    * number. */
  function Convert(f: FieldDef, v: JsValue, numberText: real -> string): (r: JsValue)
    ensures f.kind == NumberField ==> r.Num?
    ensures f.kind == BooleanField ==> r == Bool(Truthy(v))
    ensures f.kind == StringField || f.kind == TextField ==>
      r.Str? && (f.maxLength.Some? && f.maxLength.value != 0 ==> |r.s| <= f.maxLength.value)
    ensures f.kind == SelectField || f.kind == DatetimeField ==> r == v
  {
    match f.kind
    case NumberField =>
      (match ParseFloat(v)
       case Some(x) => if x != 0.0 then Num(x, numberText(x)) else Num(0.0, "0")
       case None => Num(0.0, "0"))
    case BooleanField => Bool(Truthy(v))
    case StringField => Str(Clip(f, Trim(if Truthy(v) then ToStr(v) else "")))
    case TextField => Str(Clip(f, Trim(if Truthy(v) then ToStr(v) else "")))
    case _ => v
  }

  /** `substring(0, maxLength)` when the text is longer. */
  function Clip(f: FieldDef, s: string): (r: string)
    ensures f.maxLength.Some? && f.maxLength.value != 0 ==> |r| <= f.maxLength.value
    ensures r <= s
  {
    if f.maxLength.Some? && f.maxLength.value != 0 && |s| > f.maxLength.value then s[..f.maxLength.value] else s
  }

  /** The cleaned record after the keys `keys` of `data`, with `find` the
    * field lookup and `convert` applied to each kept value. */
  function Sanitized(find: string -> Option<FieldDef>, data: Record, keys: seq<string>,
                     convert: (FieldDef, JsValue) -> JsValue): seq<(string, JsValue)>
    decreases |keys|
  {
    if keys == [] then []
    else
      var prev := Sanitized(find, data, keys[..|keys| - 1], convert);
      var k := keys[|keys| - 1];
      match find(k)
      case None => prev
      case Some(f) => Put(prev, k, convert(f, Get(data, k)))
  }

  /** A key survives exactly when it was submitted and is a field, and then
    * holds its converted value. */
  lemma {:induction false} SanitizedLookup(find: string -> Option<FieldDef>, data: Record, keys: seq<string>,
                                           convert: (FieldDef, JsValue) -> JsValue, k: string)
    ensures Lookup(Sanitized(find, data, keys, convert), k) ==
      if k in keys && find(k).Some? then Some(convert(find(k).value, Get(data, k))) else None
    decreases |keys|
  {
    if keys != [] {
      var init := keys[..|keys| - 1];
      var last := keys[|keys| - 1];
      SanitizedLookup(find, data, init, convert, k);
      assert keys == init + [last];
      var prev := Sanitized(find, data, init, convert);
      match find(last)
      case None =>
      case Some(f) => LookupPut(prev, last, convert(f, Get(data, last)), k);
    }
  }

  /** sanitize's loop over the submitted keys: each key `find` knows is
    * stored with its converted value. */
  method SanitizeKeys(data: Record, find: string -> Option<FieldDef>, convert: (FieldDef, JsValue) -> JsValue)
    returns (r: seq<(string, JsValue)>)
    ensures r == Sanitized(find, data, Keys(data), convert)
  {
    var keys := Keys(data);
    r := [];
    var i := 0;
    while i < |keys|
      invariant 0 <= i <= |keys|
      invariant r == Sanitized(find, data, keys[..i], convert)
    {
      var k := keys[i];
      assert keys[..i + 1][..i] == keys[..i];
      var f := find(k);
      if f.Some? {
        r := Put(r, k, convert(f.value, Get(data, k)));
      }
      i := i + 1;
    }
    assert keys[..|keys|] == keys;
  }

  /** sanitize, with the schema's lookup and conversion; `numberText` is
    * String() of a number. */
  method Sanitize(data: Record, numberText: real -> string) returns (r: seq<(string, JsValue)>)
    ensures r == Sanitized(FindField, data, Keys(data), (f, v) => Convert(f, v, numberText))
  {
    r := SanitizeKeys(data, FindField, (f, v) => Convert(f, v, numberText));
  }

  /** The cleaned record drops every key the schema does not define, and a
    * text field's value never exceeds the field's maximum length. */
  lemma SanitizeProperties(data: Record, numberText: real -> string, k: string)
    ensures var o := Lookup(Sanitized(FindField, data, Keys(data), (f, v) => Convert(f, v, numberText)), k);
      (FindField(k).None? || k !in Keys(data) ==> o == None) &&
      (FindField(k).Some? && k in Keys(data) ==> o == Some(Convert(FindField(k).value, Get(data, k), numberText)))
    ensures var o := Lookup(Sanitized(FindField, data, Keys(data), (f, v) => Convert(f, v, numberText)), k);
      o.Some? && (FindField(k).value.kind == StringField || FindField(k).value.kind == TextField) &&
      FindField(k).value.maxLength.Some? && FindField(k).value.maxLength.value != 0 ==>
        o.value.Str? && |o.value.s| <= FindField(k).value.maxLength.value
  {
    var convert := (f, v) => Convert(f, v, numberText);
    SanitizedLookup(FindField, data, Keys(data), convert, k);
  }

  // ---------------------------------------------------------------------
  // Blank record

  /** A field's starting value; `now` is the current ISO time. */
  function DefaultValue(f: FieldDef, now: string): JsValue {
    if f.defaultValue.Some? then f.defaultValue.value
    else
      match f.kind
      case StringField => Str("")
      case TextField => Str("")
      case NumberField => Num(0.0, "0")
      case BooleanField => Bool(false)
      case DatetimeField => Str(now)
      case SelectField => Null
  }

  function Blank(fs: seq<FieldDef>, now: string): seq<(string, JsValue)>
    decreases |fs|
  {
    if fs == [] then []
    else
      var f := fs[|fs| - 1];
      Put(Blank(fs[..|fs| - 1], now), f.name, DefaultValue(f, now))
  }

  /** Every field of the list is present with its starting value. */
  lemma {:induction false} BlankLookup(fs: seq<FieldDef>, now: string, k: nat)
    requires k < |fs|
    requires forall i, j :: 0 <= i < j < |fs| ==> fs[i].name != fs[j].name
    ensures Lookup(Blank(fs, now), fs[k].name) == Some(DefaultValue(fs[k], now))
    decreases |fs|
  {
    var init := fs[..|fs| - 1];
    var f := fs[|fs| - 1];
    LookupPut(Blank(init, now), f.name, DefaultValue(f, now), fs[k].name);
    if k < |fs| - 1 {
      BlankLookup(init, now, k);
    }
  }

  /** createEmpty. */
  method CreateEmpty(now: string) returns (r: seq<(string, JsValue)>)
    ensures r == Blank(Schema, now)
  {
    r := [];
    var i := 0;
    while i < |Schema|
      invariant 0 <= i <= |Schema|
      invariant r == Blank(Schema[..i], now)
    {
      assert Schema[..i + 1][..i] == Schema[..i];
      r := Put(r, Schema[i].name, DefaultValue(Schema[i], now));
      i := i + 1;
    }
    assert Schema[..|Schema|] == Schema;
  }

  /** The declared defaults win: 'Each' for the unit and true for active. */
  lemma BlankDefaults(now: string)
    ensures Lookup(Blank(Schema, now), "unitOfMeasure") == Some(Str("Each"))
    ensures Lookup(Blank(Schema, now), "active") == Some(Bool(true))
  {
    SchemaNamesUnique();
    SchemaAt();
    BlankLookup(Schema, now, 6);
    BlankLookup(Schema, now, 7);
  }

  /** Without a declared default a field starts from its type's own value:
    * an empty string, the number 0, and the creation time for the date. */
  lemma BlankTypeDefaults(now: string)
    ensures Lookup(Blank(Schema, now), "name") == Some(Str(""))
    ensures Lookup(Blank(Schema, now), "price") == Some(Num(0.0, "0"))
    ensures Lookup(Blank(Schema, now), "createdDate") == Some(Str(now))
  {
    SchemaNamesUnique();
    SchemaAt();
    BlankLookup(Schema, now, 1);
    BlankLookup(Schema, now, 3);
    BlankLookup(Schema, now, 8);
  }
}
