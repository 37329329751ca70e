/** PamirParser: the roof-design export reader's pure helpers (its own CSV
  * line splitter, variable-name and file checks, material normalisation and
  * categorisation) and the merge of per-file results. */
module PamirParser {
  import opened Basics
  import opened Text
  import opened JsValues
  import FileParser

  // ---------------------------------------------------------------------
  // parseCsvLine: a comma splitter whose `"` toggles quote mode
  // ---------------------------------------------------------------------

  function Scan(rest: string, fields: seq<string>, current: string, inQuotes: bool): seq<string>
    decreases |rest|
  {
    if rest == [] then fields + [Trim(current)]
    else if rest[0] == '"' then Scan(rest[1..], fields, current, !inQuotes)
    else if rest[0] == ',' && !inQuotes then Scan(rest[1..], fields + [Trim(current)], [], inQuotes)
    else Scan(rest[1..], fields, current + [rest[0]], inQuotes)
  }

  function CsvFields(line: string): seq<string> {
    Scan(line, [], [], false)
  }

  /** parseCsvLine. */
  method ParseCsvLine(line: string) returns (result: seq<string>)
    ensures result == CsvFields(line)
  {
    result := [];
    var current: string := [];
    var inQuotes := false;
    var i := 0;
    while i < |line|
      invariant 0 <= i <= |line|
      invariant Scan(line[i..], result, current, inQuotes) == CsvFields(line)
    {
      var c := line[i];
      assert line[i..][0] == c && line[i..][1..] == line[i + 1..];
      if c == '"' {
        inQuotes := !inQuotes;
      } else if c == ',' && !inQuotes {
        result := result + [Trim(current)];
        current := [];
      } else {
        current := current + [c];
      }
      i := i + 1;
    }
    assert line[i..] == [];
    result := result + [Trim(current)];
  }

  /** Commas at an even number of `"` from the start of the line: the ones
    * outside quotes. */
  function UnquotedCommas(line: string): nat
    decreases |line|
  {
    if line == [] then 0
    else
      var n := |line| - 1;
      UnquotedCommas(line[..n]) + (if line[n] == ',' && Count(line[..n], '"') % 2 == 0 then 1 else 0)
  }

  lemma CountSnoc(s: string, c: char, x: char)
    ensures Count(s + [x], c) == Count(s, c) + (if x == c then 1 else 0)
  {
    CountConcat(s, [x], c);
  }

  /** Reading one more character adds one comma outside quotes when it is a
    * comma after an even number of quotes, and flips the quote parity when
    * it is a quote. */
  lemma ReadOne(read: string, c: char)
    ensures UnquotedCommas(read + [c]) == UnquotedCommas(read) + (if c == ',' && Count(read, '"') % 2 == 0 then 1 else 0)
    ensures (Count(read + [c], '"') % 2 == 1) == (if c == '"' then !(Count(read, '"') % 2 == 1) else Count(read, '"') % 2 == 1)
  {
    var read' := read + [c];
    assert read'[..|read'| - 1] == read && read'[|read'| - 1] == c;
    CountSnoc(read, '"', c);
  }

  /** The scan keeps every field so far, adds one per comma outside quotes
    * and one at the end; quote mode is the parity of the quotes read. */
  lemma {:induction false} ScanLength(read: string, rest: string, fields: seq<string>, current: string)
    ensures |Scan(rest, fields, current, Count(read, '"') % 2 == 1)| ==
      |fields| + 1 + UnquotedCommas(read + rest) - UnquotedCommas(read)
    ensures UnquotedCommas(read + rest) >= UnquotedCommas(read)
    decreases |rest|
  {
    if rest == [] {
      assert read + rest == read;
    } else {
      var c := rest[0];
      var read' := read + [c];
      var q := Count(read, '"') % 2 == 1;
      assert read' + rest[1..] == read + rest;
      ReadOne(read, c);
      if c == '"' {
        assert Scan(rest, fields, current, q) == Scan(rest[1..], fields, current, !q);
        ScanLength(read', rest[1..], fields, current);
      } else if c == ',' && !q {
        assert Scan(rest, fields, current, q) == Scan(rest[1..], fields + [Trim(current)], [], q);
        ScanLength(read', rest[1..], fields + [Trim(current)], []);
      } else {
        assert Scan(rest, fields, current, q) == Scan(rest[1..], fields, current + [c], q);
        ScanLength(read', rest[1..], fields, current + [c]);
      }
    }
  }

  /** One field more than there are commas outside quotes. */
  lemma FieldCount(line: string)
    ensures |CsvFields(line)| == UnquotedCommas(line) + 1
  {
    ScanLength([], line, [], []);
    assert [] + line == line;
  }

  lemma {:induction false} ScanDropsQuotes(rest: string, fields: seq<string>, current: string, inQuotes: bool)
    requires forall k :: 0 <= k < |fields| ==> '"' !in fields[k]
    requires '"' !in current
    ensures forall k :: 0 <= k < |Scan(rest, fields, current, inQuotes)| ==> '"' !in Scan(rest, fields, current, inQuotes)[k]
    decreases |rest|
  {
    TrimSub(current);
    if rest != [] {
      if rest[0] == '"' {
        ScanDropsQuotes(rest[1..], fields, current, !inQuotes);
      } else if rest[0] == ',' && !inQuotes {
        ScanDropsQuotes(rest[1..], fields + [Trim(current)], [], inQuotes);
      } else {
        ScanDropsQuotes(rest[1..], fields, current + [rest[0]], inQuotes);
      }
    }
  }

  lemma TrimSub(s: string)
    ensures forall c :: c in Trim(s) ==> c in s
  {
    var t := TrimStart(s);
    forall c | c in Trim(s) ensures c in s {
      var i :| 0 <= i < |Trim(s)| && Trim(s)[i] == c;
      assert t[i] == c;
      assert s[|s| - |t| + i] == c;
    }
  }

  /** Quote characters never reach a field. */
  lemma QuotesDropped(line: string)
    ensures forall k :: 0 <= k < |CsvFields(line)| ==> '"' !in CsvFields(line)[k]
  {
    ScanDropsQuotes(line, [], [], false);
  }

  lemma {:induction false} ScanQuoteFree(rest: string, fields: seq<string>, current: string)
    requires '"' !in rest && ',' !in current
    ensures Scan(rest, fields, current, false) == fields + FileParser.MapField(Split(current + rest, ','), true)
    decreases |rest|
  {
    if rest == [] {
      EndStep(fields, current);
    } else if rest[0] == ',' {
      ScanQuoteFree(rest[1..], fields + [Trim(current)], []);
      CommaStep(rest, fields, current);
    } else {
      assert ',' !in current + [rest[0]];
      ScanQuoteFree(rest[1..], fields, current + [rest[0]]);
      CharStep(rest, fields, current);
    }
  }

  /** The end of the line closes the last field. */
  lemma EndStep(fields: seq<string>, current: string)
    requires ',' !in current
    ensures Scan([], fields, current, false) == fields + FileParser.MapField(Split(current + [], ','), true)
  {
    var one := [current];
    calc {
      FileParser.MapField(Split(current + [], ','), true);
      { assert current + [] == current; SplitNoSeparator(current, ','); }
      FileParser.MapField(one, true);
      { assert one[1..] == []; }
      [Trim(current)];
    }
  }

  /** Any other character outside quotes extends the current field. */
  lemma CharStep(rest: string, fields: seq<string>, current: string)
    requires rest != [] && rest[0] != ',' && rest[0] != '"'
    requires Scan(rest[1..], fields, current + [rest[0]], false) ==
      fields + FileParser.MapField(Split(current + [rest[0]] + rest[1..], ','), true)
    ensures Scan(rest, fields, current, false) == fields + FileParser.MapField(Split(current + rest, ','), true)
  {
    assert current + [rest[0]] + rest[1..] == current + rest;
  }

  /** A comma outside quotes closes the current field. */
  lemma CommaStep(rest: string, fields: seq<string>, current: string)
    requires rest != [] && rest[0] == ',' && ',' !in current
    requires Scan(rest[1..], fields + [Trim(current)], [], false) ==
      fields + [Trim(current)] + FileParser.MapField(Split([] + rest[1..], ','), true)
    ensures Scan(rest, fields, current, false) == fields + FileParser.MapField(Split(current + rest, ','), true)
  {
    var vals := [current] + Split(rest[1..], ',');
    calc {
      Scan(rest, fields, current, false);
      Scan(rest[1..], fields + [Trim(current)], [], false);
      { assert [] + rest[1..] == rest[1..]; }
      fields + [Trim(current)] + FileParser.MapField(Split(rest[1..], ','), true);
      { assert vals[0] == current && vals[1..] == Split(rest[1..], ',');
        FileParser.MapFieldPrepend(fields, vals, true); }
      fields + FileParser.MapField(vals, true);
      { FileParser.SplitAtDelimiter(current, rest, ','); }
      fields + FileParser.MapField(Split(current + rest, ','), true);
    }
  }

  /** Without quotes the line is split at every comma and each piece trimmed. */
  lemma QuoteFreeLine(line: string)
    requires '"' !in line
    ensures CsvFields(line) == FileParser.MapField(Split(line, ','), true)
  {
    ScanQuoteFree(line, [], []);
    assert [] + line == line;
  }

  // ---------------------------------------------------------------------
  // Names and files
  // ---------------------------------------------------------------------

  function ReservedNames(): seq<string> { ["id", "index", "row", "column", "cell"] }

  predicate IsNameTail(c: char) { IsLetter(c) || IsDigit(c) || c == '_' || c == '.' }

  /** isValidVariableName: a string of at least two characters, a letter
    * then letters, digits, `_` or `.`, and not a reserved word in any case. */
  predicate IsValidVariableName(name: JsValue) {
    Truthy(name) && name.Str? && |name.s| > 1 &&
    IsLetter(name.s[0]) && (forall k :: 1 <= k < |name.s| ==> IsNameTail(name.s[k])) &&
    Lower(name.s) !in ReservedNames()
  }

  lemma LowerUpper(s: string)
    ensures Lower(Upper(s)) == Lower(s)
  {}

  /** Validity does not depend on letter case. */
  lemma ValidNameIgnoresCase(s: string)
    ensures IsValidVariableName(Str(Upper(s))) <==> IsValidVariableName(Str(s))
  {
    LowerUpper(s);
    var u := Upper(s);
    assert |u| == |s|;
    forall k | 0 <= k < |s| ensures (IsLetter(u[k]) <==> IsLetter(s[k])) && (IsNameTail(u[k]) <==> IsNameTail(s[k])) {}
  }

  /** No name of one character, and no name starting with a digit,
    * qualifies; "ID" and "Row" are rejected like "id" and "row". */
  lemma InvalidNames(s: string)
    ensures |s| <= 1 ==> !IsValidVariableName(Str(s))
    ensures s != [] && IsDigit(s[0]) ==> !IsValidVariableName(Str(s))
    ensures Lower(s) in ReservedNames() ==> !IsValidVariableName(Str(s))
  {}

  function SupportedFormats(): seq<string> { [".xlsx", ".xls", ".json"] }

  /** isValidFile, by the same extension rule as the file utility's. */
  predicate IsValidFile(name: string) {
    FileParser.GetFileExtension(name) in SupportedFormats()
  }

  /** A name without a '.' is never valid; every valid name is one the file
    * utility supports too. */
  lemma ValidFileProperties(name: string)
    ensures IsValidFile(name) ==> '.' in name
    ensures IsValidFile(name) ==> FileParser.IsSupportedExtension(FileParser.GetFileExtension(name))
  {
    var ext := FileParser.GetFileExtension(name);
    FileParser.SupportedExtensions(ext);
    if '.' !in name {
      assert ext == Lower(name);
      forall k | 0 <= k < |ext| ensures ext[k] != '.' {
        assert name[k] != '.';
      }
      assert ".xlsx"[0] == '.' && ".xls"[0] == '.' && ".json"[0] == '.';
    }
  }

  // ---------------------------------------------------------------------
  // categorizeExtract
  // ---------------------------------------------------------------------

  datatype Category = Timber | Plates | Fasteners | Hardware | Accessories

  /** `(v || '').toLowerCase()`: a truthy non-string has no such method. */
  function LowerText(v: JsValue): Result<string, string> {
    var x := Or(v, Str(""));
    if x.Str? then Ok(Lower(x.s)) else Err("TypeError")
  }

  predicate HasAny(s: string, words: seq<string>) {
    exists k :: 0 <= k < |words| && Contains(s, words[k])
  }

  function CategoryOf(desc: string): Category {
    if HasAny(desc, ["timber", "wood", "lumber"]) then Timber
    else if HasAny(desc, ["plate", "connector"]) then Plates
    else if HasAny(desc, ["nail", "screw", "bolt"]) then Fasteners
    else if HasAny(desc, ["steel", "metal"]) then Hardware
    else Accessories
  }

  /** categorizeExtract: by the lower-cased description (or name); the code
    * is lower-cased too but not used. */
  function CategorizeExtract(material: JsValue): Result<Category, string> {
    match LowerText(Or(Prop(material, "description"), Prop(material, "name")))
    case Err(e) => Err(e)
    case Ok(desc) =>
      match LowerText(Prop(material, "code"))
      case Err(e) => Err(e)
      case Ok(_) => Ok(CategoryOf(desc))
  }

  /** The keyword groups are tried in a fixed priority order: a group wins
    * exactly when it matches and no earlier group does. */
  lemma CategoryPriority(desc: string)
    ensures CategoryOf(desc) == Timber <==> HasAny(desc, ["timber", "wood", "lumber"])
    ensures CategoryOf(desc) == Plates <==> !HasAny(desc, ["timber", "wood", "lumber"]) && HasAny(desc, ["plate", "connector"])
    ensures CategoryOf(desc) == Fasteners <==>
      !HasAny(desc, ["timber", "wood", "lumber"]) && !HasAny(desc, ["plate", "connector"]) && HasAny(desc, ["nail", "screw", "bolt"])
    ensures CategoryOf(desc) == Accessories <==>
      !HasAny(desc, ["timber", "wood", "lumber", "plate", "connector", "nail", "screw", "bolt", "steel", "metal"])
  {
    var all := ["timber", "wood", "lumber", "plate", "connector", "nail", "screw", "bolt", "steel", "metal"];
    if HasAny(desc, all) {
      var k :| 0 <= k < |all| && Contains(desc, all[k]);
      if k < 3 { assert Contains(desc, ["timber", "wood", "lumber"][k]); }
      else if k < 5 { assert Contains(desc, ["plate", "connector"][k - 3]); }
      else if k < 8 { assert Contains(desc, ["nail", "screw", "bolt"][k - 5]); }
      else { assert Contains(desc, ["steel", "metal"][k - 8]); }
    }
    if HasAny(desc, ["timber", "wood", "lumber"]) {
      var k :| 0 <= k < 3 && Contains(desc, ["timber", "wood", "lumber"][k]);
      assert all[k] == ["timber", "wood", "lumber"][k];
    }
    if HasAny(desc, ["plate", "connector"]) {
      var k :| 0 <= k < 2 && Contains(desc, ["plate", "connector"][k]);
      assert all[k + 3] == ["plate", "connector"][k];
    }
    if HasAny(desc, ["nail", "screw", "bolt"]) {
      var k :| 0 <= k < 3 && Contains(desc, ["nail", "screw", "bolt"][k]);
      assert all[k + 5] == ["nail", "screw", "bolt"][k];
    }
    if HasAny(desc, ["steel", "metal"]) {
      var k :| 0 <= k < 2 && Contains(desc, ["steel", "metal"][k]);
      assert all[k + 8] == ["steel", "metal"][k];
    }
  }

  /** A description naming timber is timber whatever else it says. */
  lemma TimberFirst(material: JsValue, desc: string)
    requires LowerText(Or(Prop(material, "description"), Prop(material, "name"))) == Ok(desc)
    requires LowerText(Prop(material, "code")).Ok?
    requires Contains(desc, "timber")
    ensures CategorizeExtract(material) == Ok(Timber)
  {
    assert ["timber", "wood", "lumber"][0] == "timber";
  }

  // ---------------------------------------------------------------------
  // processMaterial
  // ---------------------------------------------------------------------

  function StandardFields(): seq<string> {
    ["code", "description", "quantity", "unit", "length", "width", "height", "grade"]
  }

  predicate IsPresent(v: JsValue) { !IsNullish(v) && v != Str("") }

  /** extractProperties: the entries outside the standard fields (compared
    * lower-cased) whose value is present. */
  function ExtractProperties(entries: Record): (r: Record)
    ensures forall k :: 0 <= k < |r| ==> r[k] in entries && Lower(r[k].0) !in StandardFields() && IsPresent(r[k].1)
  {
    if entries == [] then []
    else
      var rest := ExtractProperties(entries[1..]);
      if Lower(entries[0].0) !in StandardFields() && IsPresent(entries[0].1) then [entries[0]] + rest else rest
  }

  /** Every non-standard present entry is kept. */
  lemma {:induction false} ExtractPropertiesKeeps(entries: Record, e: (string, JsValue))
    requires e in entries && Lower(e.0) !in StandardFields() && IsPresent(e.1)
    ensures e in ExtractProperties(entries)
    decreases |entries|
  {
    if entries[0] != e {
      ExtractPropertiesKeeps(entries[1..], e);
    }
  }

  datatype Material = Material(
    code: JsValue,
    description: JsValue,
    quantity: real,
    unit: JsValue,
    length: JsValue,
    width: JsValue,
    height: JsValue,
    grade: JsValue,
    category: Category,
    properties: Record,
    stockMatch: string)

  /** `parseFloat(v) || 1`: NaN and 0 give 1. */
  function QuantityOf(v: JsValue): (q: real)
    ensures q != 0.0
  {
    match ParseFloat(v)
    case Some(x) => if x != 0.0 then x else 1.0
    case None => 1.0
  }

  function MaterialQuantity(m: JsValue): real {
    QuantityOf(Or(Or(Prop(m, "quantity"), Prop(m, "qty")), Prop(m, "count")))
  }

  function MaterialUnit(m: JsValue): JsValue {
    Or(Or(Or(Prop(m, "unit"), Prop(m, "uom")), Prop(m, "unitOfMeasure")), Str("EA"))
  }

  /** processMaterial: None (null) for a falsy or non-object value. */
  function ProcessMaterial(m: JsValue): (r: Result<Option<Material>, string>)
    ensures !(m.Obj? || m.Arr?) ==> r == Ok(None)
    ensures r.Ok? && r.value.Some? ==>
      r.value.value.stockMatch == "unknown" && r.value.value.quantity != 0.0 && Truthy(r.value.value.unit)
  {
    if !Truthy(m) || !(m.Obj? || m.Arr?) then Ok(None)
    else
      match CategorizeExtract(m)
      case Err(e) => Err(e)
      case Ok(cat) =>
        Ok(Some(Material(
          code := Or(Or(Prop(m, "code"), Prop(m, "partNumber")), Prop(m, "id")),
          description := Or(Or(Prop(m, "description"), Prop(m, "name")), Prop(m, "title")),
          quantity := MaterialQuantity(m),
          unit := MaterialUnit(m),
          length := Or(Or(Prop(m, "length"), Prop(m, "size")), Null),
          width := Or(Prop(m, "width"), Null),
          height := Or(Or(Prop(m, "height"), Prop(m, "thickness")), Null),
          grade := Or(Or(Or(Prop(m, "grade"), Prop(m, "class")), Prop(m, "strength")), Null),
          category := cat,
          properties := ExtractProperties(Entries(m)),
          stockMatch := "unknown")))
  }

  lemma ParseFloatUndefined()
    ensures ParseFloat(Undefined) == None
  {
    var u := ToStr(Undefined);
    assert u[0] == 'u';
    ParseFloatWord(u);
  }

  lemma AbsentGet(fields: Record, key: string)
    requires forall k :: 0 <= k < |fields| ==> fields[k].0 != key
    ensures Get(fields, key) == Undefined
  {
    forall k | 0 <= k < |Keys(fields)| ensures Keys(fields)[k] != key {}
    GetAbsent(fields, key);
  }

  /** The defaults: with no quantity, unit or unit of measure, a material
    * gets quantity 1 and unit 'EA'. */
  lemma ProcessMaterialDefaults(fields: Record)
    requires forall k :: 0 <= k < |fields| ==> fields[k].0 !in ["quantity", "qty", "count", "unit", "uom", "unitOfMeasure"]
    ensures MaterialQuantity(Obj(fields)) == 1.0
    ensures MaterialUnit(Obj(fields)) == Str("EA")
  {
    AbsentGet(fields, "quantity");
    AbsentGet(fields, "qty");
    AbsentGet(fields, "count");
    AbsentGet(fields, "unit");
    AbsentGet(fields, "uom");
    AbsentGet(fields, "unitOfMeasure");
    var m := Obj(fields);
    assert Prop(m, "quantity") == Undefined && Prop(m, "qty") == Undefined && Prop(m, "count") == Undefined;
    assert Prop(m, "unit") == Undefined && Prop(m, "uom") == Undefined && Prop(m, "unitOfMeasure") == Undefined;
    ParseFloatUndefined();
    assert QuantityOf(Undefined) == 1.0;
  }

  // ---------------------------------------------------------------------
  // findFieldValue and isVariableRow
  // ---------------------------------------------------------------------

  /** `obj[f] || obj[f.toLowerCase()] || obj[f.toUpperCase()]`. */
  function Candidate(obj: Record, f: string): JsValue {
    Or(Or(Get(obj, f), Get(obj, Lower(f))), Get(obj, Upper(f)))
  }

  /** The first field name whose candidate value is present. */
  function FirstFieldValue(obj: Record, names: seq<string>): (r: Option<JsValue>)
    ensures r.Some? ==> IsPresent(r.value)
    ensures r.Some? <==> exists i :: 0 <= i < |names| && IsPresent(Candidate(obj, names[i]))
  {
    if names == [] then None
    else if IsPresent(Candidate(obj, names[0])) then Some(Candidate(obj, names[0]))
    else
      var r := FirstFieldValue(obj, names[1..]);
      assert forall i :: 1 <= i < |names| ==> names[i] == names[1..][i - 1];
      r
  }

  /** The value found belongs to the first qualifying name. */
  lemma {:induction false} FirstFieldValueIsFirst(obj: Record, names: seq<string>, i: nat)
    requires i < |names| && IsPresent(Candidate(obj, names[i]))
    requires forall j :: 0 <= j < i ==> !IsPresent(Candidate(obj, names[j]))
    ensures FirstFieldValue(obj, names) == Some(Candidate(obj, names[i]))
    decreases i
  {
    if i > 0 {
      FirstFieldValueIsFirst(obj, names[1..], i - 1);
    }
  }

  /** findFieldValue: the loop with its early return. */
  method FindFieldValue(obj: Record, names: seq<string>) returns (r: Option<JsValue>)
    ensures r == FirstFieldValue(obj, names)
  {
    var i := 0;
    while i < |names|
      invariant 0 <= i <= |names|
      invariant FirstFieldValue(obj, names[i..]) == FirstFieldValue(obj, names)
    {
      assert names[i..][1..] == names[i + 1..];
      var value := Candidate(obj, names[i]);
      if IsPresent(value) {
        return Some(value);
      }
      i := i + 1;
    }
    assert names[i..] == [];
    return None;
  }

  /** isNumericValue: parseFloat is a number and Number(v) is finite. */
  predicate IsNumericValue(v: JsValue) { ParseFloat(v).Some? && ToNumber(v).Some? }

  function NumericCount(values: seq<JsValue>): (n: nat)
    ensures n <= |values|
  {
    if values == [] then 0 else (if IsNumericValue(values[0]) then 1 else 0) + NumericCount(values[1..])
  }

  /** isVariableRow: more than half of the values are numeric. */
  predicate IsVariableRow(row: Record) {
    var values := seq(|row|, i requires 0 <= i < |row| => row[i].1);
    (NumericCount(values) as real) > (|values| as real) * 0.5
  }

  lemma {:induction false} NumericCountAll(values: seq<JsValue>)
    requires forall k :: 0 <= k < |values| ==> IsNumericValue(values[k])
    ensures NumericCount(values) == |values|
  {
    if values != [] {
      NumericCountAll(values[1..]);
    }
  }

  /** An empty row is not a variable row; a non-empty row of numbers is. */
  lemma VariableRowBounds(row: Record)
    ensures row == [] ==> !IsVariableRow(row)
    ensures row != [] && (forall k :: 0 <= k < |row| ==> IsNumericValue(row[k].1)) ==> IsVariableRow(row)
  {
    var values := seq(|row|, i requires 0 <= i < |row| => row[i].1);
    if forall k :: 0 <= k < |row| ==> IsNumericValue(row[k].1) {
      NumericCountAll(values);
    }
  }

  // ---------------------------------------------------------------------
  // mergeResults
  // ---------------------------------------------------------------------

  /** One file's results; a missing part is None. */
  datatype FileResults = FileResults(projectInfo: Option<Record>, variables: Option<Record>, materials: Option<seq<JsValue>>)

  /** The accumulated results of several files. */
  class Results {
    var projectInfo: Record
    var variables: Record
    var materials: seq<JsValue>

    constructor()
      ensures projectInfo == [] && variables == [] && materials == []
    {
      projectInfo := [];
      variables := [];
      materials := [];
    }

    /** mergeResults: project info and variables are assigned over the
      * accumulated ones, materials appended. */
    method Merge(file: FileResults)
      modifies this
      ensures projectInfo == if file.projectInfo.Some? then Assign(old(projectInfo), file.projectInfo.value) else old(projectInfo)
      ensures variables == if file.variables.Some? then Assign(old(variables), file.variables.value) else old(variables)
      ensures materials == old(materials) + (if file.materials.Some? then file.materials.value else [])
      ensures |materials| == |old(materials)| + (if file.materials.Some? then |file.materials.value| else 0)
    {
      if file.projectInfo.Some? {
        projectInfo := Assign(projectInfo, file.projectInfo.value);
      }
      if file.variables.Some? {
        variables := Assign(variables, file.variables.value);
      }
      if file.materials.Some? {
        materials := materials + file.materials.value;
      }
    }
  }

  /** The later file wins: after merging, a variable the file defines has the
    * file's value and every other keeps the accumulated one. */
  lemma LaterFileWins(acc: Record, file: Record, name: string)
    requires UniqueKeys(file)
    ensures Get(Assign(acc, file), name) == if name in Keys(file) then Get(file, name) else Get(acc, name)
  {
    AssignGet(acc, file, name);
  }
}
