/** FileParser: the CSV reader and writer, delimiter detection, file-type
  * checks and the JSON structure walks of the upload utility. */
module FileParser {
  import opened Basics
  import opened Text
  import opened JsValues

  // ---------------------------------------------------------------------
  // Supported types and file validation
  // ---------------------------------------------------------------------

  /** The supported file types, grouped by parser. */
  function SupportedTypes(): seq<(string, seq<string>)> {
    [("excel", [".xlsx", ".xls"]), ("json", [".json"]), ("csv", [".csv"]), ("text", [".txt"])]
  }

  /** 50 MB. */
  const MaxFileSize: nat := 50 * 1024 * 1024

  /** The extension: the lower-cased name from its last '.', or the whole
    * lower-cased name when there is no '.'. */
  function GetFileExtension(name: string): (r: string)
    ensures |r| <= |name|
    ensures '.' in name ==> |r| >= 1 && r[0] == '.' && '.' !in r[1..] && r == Lower(name)[|name| - |r|..]
    ensures '.' !in name ==> r == Lower(name)
  {
    match LastIndexOf(name, '.')
    case None => Lower(name)
    case Some(i) =>
      assert Lower(name)[i..][1..] == Lower(name[i + 1..]);
      Lower(name)[i..]
  }

  predicate IsSupportedExtension(ext: string) {
    exists g :: 0 <= g < |SupportedTypes()| && ext in SupportedTypes()[g].1
  }

  lemma SupportedExtensions(ext: string)
    ensures IsSupportedExtension(ext) <==> ext in [".xlsx", ".xls", ".json", ".csv", ".txt"]
  {
    var t := SupportedTypes();
    if ext in [".xlsx", ".xls", ".json", ".csv", ".txt"] {
      if ext == ".xlsx" || ext == ".xls" { assert ext in t[0].1; }
      else if ext == ".json" { assert ext in t[1].1; }
      else if ext == ".csv" { assert ext in t[2].1; }
      else { assert ext in t[3].1; }
    }
  }

  datatype ParserKind = JsonParser | CsvParser | TextParser | ExcelParser

  /** The parser table: undefined (None) for every other extension. */
  function GetParserForExtension(ext: string): Option<ParserKind> {
    if ext == ".json" then Some(JsonParser)
    else if ext == ".csv" then Some(CsvParser)
    else if ext == ".txt" then Some(TextParser)
    else if ext == ".xlsx" || ext == ".xls" then Some(ExcelParser)
    else None
  }

  /** Exactly the supported extensions have a parser. */
  lemma ParserForSupported(ext: string)
    ensures GetParserForExtension(ext).Some? <==> IsSupportedExtension(ext)
  {
    SupportedExtensions(ext);
  }

  datatype FileInfo = FileInfo(name: string, size: nat)

  datatype FileError = NoFile | EmptyFile | TooLarge | UnsupportedType(ext: string)

  /** validateFile: the checks in order, the first failure wins. */
  function ValidateFile(file: Option<FileInfo>): (r: Result<(), FileError>)
    ensures r.Ok? <==>
      (file.Some? && 0 < file.value.size <= MaxFileSize && IsSupportedExtension(GetFileExtension(file.value.name)))
  {
    if file.None? then Err(NoFile)
    else if file.value.size == 0 then Err(EmptyFile)
    else if file.value.size > MaxFileSize then Err(TooLarge)
    else
      var ext := GetFileExtension(file.value.name);
      if !IsSupportedExtension(ext) then Err(UnsupportedType(ext)) else Ok(())
  }

  /** Each check only fires once the earlier ones have passed. */
  lemma ValidateFileOrder(file: Option<FileInfo>)
    ensures ValidateFile(file) == Err(NoFile) <==> file.None?
    ensures ValidateFile(file) == Err(EmptyFile) <==> file.Some? && file.value.size == 0
    ensures ValidateFile(file) == Err(TooLarge) <==> file.Some? && file.value.size > MaxFileSize
    ensures ValidateFile(file).Err? && ValidateFile(file).error.UnsupportedType? ==>
      file.Some? && 0 < file.value.size <= MaxFileSize &&
      ValidateFile(file).error.ext == GetFileExtension(file.value.name)
  {}

  // ---------------------------------------------------------------------
  // parseCsvLine
  // ---------------------------------------------------------------------

  predicate IsQuoteChar(c: char) { c == '"' || c == '\'' }

  function Field(s: string, trim: bool): string {
    if trim then Trim(s) else s
  }

  /** Each piece as pushed: trimmed when asked. */
  function MapField(parts: seq<string>, trim: bool): (r: seq<string>)
    ensures |r| == |parts|
  {
    if parts == [] then [] else [Field(parts[0], trim)] + MapField(parts[1..], trim)
  }

  lemma {:induction false} MapFieldAt(parts: seq<string>, trim: bool, k: nat)
    requires k < |parts|
    ensures MapField(parts, trim)[k] == Field(parts[k], trim)
    decreases k
  {
    if k > 0 {
      MapFieldAt(parts[1..], trim, k - 1);
    }
  }

  lemma {:induction false} MapFieldKeep(parts: seq<string>)
    ensures MapField(parts, false) == parts
    decreases |parts|
  {
    if parts != [] {
      MapFieldKeep(parts[1..]);
    }
  }

  /** The scanner over the rest of the line. `quote` is the open quote
    * character, None outside quotes; `current` is the field being read. */
  function Scan(rest: string, fields: seq<string>, current: string, quote: Option<char>, delim: char, trim: bool): seq<string>
    decreases |rest|
  {
    if rest == [] then fields + [Field(current, trim)]
    else
      var c := rest[0];
      if quote.None? && IsQuoteChar(c) then Scan(rest[1..], fields, current, Some(c), delim, trim)
      else if quote.Some? && c == quote.value then
        if |rest| > 1 && rest[1] == c then Scan(rest[2..], fields, current + [c], quote, delim, trim)
        else Scan(rest[1..], fields, current, None, delim, trim)
      else if quote.None? && c == delim then Scan(rest[1..], fields + [Field(current, trim)], [], None, delim, trim)
      else Scan(rest[1..], fields, current + [c], quote, delim, trim)
  }

  function CsvFields(line: string, delim: char, trim: bool): seq<string> {
    Scan(line, [], [], None, delim, trim)
  }

  /** parseCsvLine: the character loop. */
  method ParseCsvLine(line: string, delim: char, trim: bool) returns (fields: seq<string>)
    ensures fields == CsvFields(line, delim, trim)
  {
    fields := [];
    var current: string := [];
    var quote: Option<char> := None;
    var i := 0;
    while i < |line|
      invariant 0 <= i <= |line|
      invariant Scan(line[i..], fields, current, quote, delim, trim) == CsvFields(line, delim, trim)
      decreases |line| - i
    {
      var c := line[i];
      assert line[i..][0] == c && line[i..][1..] == line[i + 1..];
      if quote.None? && IsQuoteChar(c) {
        quote := Some(c);
      } else if quote.Some? && c == quote.value {
        if i + 1 < |line| && line[i + 1] == c {
          assert line[i..][1] == line[i + 1] && line[i..][2..] == line[i + 2..];
          current := current + [c];
          i := i + 1;
        } else {
          quote := None;
        }
      } else if quote.None? && c == delim {
        fields := fields + [Field(current, trim)];
        current := [];
      } else {
        current := current + [c];
      }
      i := i + 1;
    }
    assert line[i..] == [];
    fields := fields + [Field(current, trim)];
  }

  lemma ScanOrdinary(rest: string, fields: seq<string>, current: string, quote: Option<char>, delim: char, trim: bool)
    requires rest != [] && (quote.None? ==> !IsQuoteChar(rest[0]) && rest[0] != delim)
    requires quote.Some? ==> rest[0] != quote.value
    ensures Scan(rest, fields, current, quote, delim, trim) == Scan(rest[1..], fields, current + [rest[0]], quote, delim, trim)
  {}

  lemma ScanDelimiter(rest: string, fields: seq<string>, current: string, delim: char, trim: bool)
    requires rest != [] && !IsQuoteChar(delim) && rest[0] == delim
    ensures Scan(rest, fields, current, None, delim, trim) == Scan(rest[1..], fields + [Field(current, trim)], [], None, delim, trim)
  {}

  lemma SplitAtDelimiter(current: string, rest: string, delim: char)
    requires delim !in current && rest != [] && rest[0] == delim
    ensures Split(current + rest, delim) == [current] + Split(rest[1..], delim)
  {
    assert rest == [delim] + rest[1..];
    SplitFreePrefix(current, rest, delim);
    assert Split(rest, delim) == [[]] + Split(rest[1..], delim);
    assert current + [] == current;
  }

  lemma AppendOne<T>(a: seq<T>, x: T, b: seq<T>)
    ensures a + [x] + b == a + ([x] + b)
  {}

  lemma MapFieldCons(p: string, parts: seq<string>, trim: bool)
    ensures MapField([p] + parts, trim) == [Field(p, trim)] + MapField(parts, trim)
  {
    assert ([p] + parts)[1..] == parts;
  }

  /** The delimiter case of `ScanQuoteFree`, given the claim for the rest. */
  lemma QuoteFreeDelimiterStep(rest: string, fields: seq<string>, current: string, delim: char, trim: bool)
    requires rest != [] && rest[0] == delim && !IsQuoteChar(delim) && delim !in current
    requires Scan(rest[1..], fields + [Field(current, trim)], [], None, delim, trim) ==
      fields + [Field(current, trim)] + MapField(Split(rest[1..], delim), trim)
    ensures Scan(rest, fields, current, None, delim, trim) == fields + MapField(Split(current + rest, delim), trim)
  {
    var tail := Split(rest[1..], delim);
    var f := Field(current, trim);
    calc {
      Scan(rest, fields, current, None, delim, trim);
      { ScanDelimiter(rest, fields, current, delim, trim); }
      Scan(rest[1..], fields + [f], [], None, delim, trim);
      fields + [f] + MapField(tail, trim);
      { MapFieldCons(current, tail, trim); }
      fields + MapField([current] + tail, trim);
      { SplitAtDelimiter(current, rest, delim); }
      fields + MapField(Split(current + rest, delim), trim);
    }
  }

  /** A quote-free stretch is read into the current field up to the next
    * delimiter: the scan is the line split at its delimiters. */
  lemma {:induction false} ScanQuoteFree(rest: string, fields: seq<string>, current: string, delim: char, trim: bool)
    requires forall k :: 0 <= k < |rest| ==> !IsQuoteChar(rest[k])
    requires delim !in current
    ensures Scan(rest, fields, current, None, delim, trim) == fields + MapField(Split(current + rest, delim), trim)
    decreases |rest|
  {
    if rest == [] {
      assert current + rest == current;
      SplitNoSeparator(current, delim);
    } else {
      var c := rest[0];
      if c == delim {
        ScanQuoteFree(rest[1..], fields + [Field(current, trim)], [], delim, trim);
        assert [] + rest[1..] == rest[1..];
        QuoteFreeDelimiterStep(rest, fields, current, delim, trim);
      } else {
        ScanOrdinary(rest, fields, current, None, delim, trim);
        assert delim !in current + [c];
        ScanQuoteFree(rest[1..], fields, current + [c], delim, trim);
        assert current + [c] + rest[1..] == current + rest;
      }
    }
  }

  /** A line without quote characters is split at every delimiter, each
    * piece trimmed when asked: one field more than it has delimiters. */
  lemma QuoteFreeLine(line: string, delim: char, trim: bool)
    requires forall k :: 0 <= k < |line| ==> !IsQuoteChar(line[k])
    ensures CsvFields(line, delim, trim) == MapField(Split(line, delim), trim)
    ensures |CsvFields(line, delim, trim)| == Count(line, delim) + 1
  {
    ScanQuoteFree(line, [], [], delim, trim);
    assert [] + line == line;
    SplitCount(line, delim);
  }

  /** Every field but the last is closed by a delimiter the scan reads
    * outside quotes, so the scan adds at least one field and at most one
    * more than the delimiters it reads. */
  lemma {:induction false} ScanFieldCount(rest: string, fields: seq<string>, current: string, quote: Option<char>, delim: char, trim: bool)
    ensures |fields| + 1 <= |Scan(rest, fields, current, quote, delim, trim)| <= |fields| + Count(rest, delim) + 1
    decreases |rest|
  {
    if rest != [] {
      var c := rest[0];
      assert Count(rest, delim) == (if c == delim then 1 else 0) + Count(rest[1..], delim);
      if quote.None? && IsQuoteChar(c) {
        ScanFieldCount(rest[1..], fields, current, Some(c), delim, trim);
      } else if quote.Some? && c == quote.value {
        if |rest| > 1 && rest[1] == c {
          assert rest[1..][1..] == rest[2..];
          assert Count(rest[1..], delim) == (if rest[1] == delim then 1 else 0) + Count(rest[2..], delim);
          ScanFieldCount(rest[2..], fields, current + [c], quote, delim, trim);
        } else {
          ScanFieldCount(rest[1..], fields, current, None, delim, trim);
        }
      } else if quote.None? && c == delim {
        ScanFieldCount(rest[1..], fields + [Field(current, trim)], [], None, delim, trim);
      } else {
        ScanFieldCount(rest[1..], fields, current + [c], quote, delim, trim);
      }
    }
  }

  /** parseCsvLine returns at least one field and at most one more than the
    * line has delimiters; a line without the delimiter is one field. */
  lemma CsvFieldCount(line: string, delim: char, trim: bool)
    ensures 1 <= |CsvFields(line, delim, trim)| <= Count(line, delim) + 1
    ensures delim !in line ==> |CsvFields(line, delim, trim)| == 1
  {
    ScanFieldCount(line, [], [], None, delim, trim);
    CountZero(line, delim);
  }

  /** A quoted body: every quote character `q` in the value doubled. */
  function Escape(v: string, q: char): (r: string)
    ensures |r| >= |v|
  {
    if v == [] then []
    else (if v[0] == q then [q, q] else [v[0]]) + Escape(v[1..], q)
  }

  /** The quoted form of a value: wrapped in `q` with inner `q` doubled. The
    * writers use `"`; the reader accepts `'` as well. */
  function Quote(v: string, q: char): string {
    [q] + Escape(v, q) + [q]
  }

  /** Inside quotes opened by `q`, an escaped body followed by the closing
    * quote reads back as the original text. */
  lemma {:induction false} ScanEscaped(v: string, q: char, after: string, fields: seq<string>, current: string, delim: char, trim: bool)
    requires after == [] || after[0] != q
    ensures Scan(Escape(v, q) + [q] + after, fields, current, Some(q), delim, trim) ==
      Scan(after, fields, current + v, None, delim, trim)
    decreases |v|
  {
    if v == [] {
      assert Escape(v, q) + [q] + after == [q] + after;
      assert current + v == current;
      ClosingQuote(q, after, fields, current, delim, trim);
    } else {
      calc {
        Scan(Escape(v, q) + [q] + after, fields, current, Some(q), delim, trim);
        { EscapedStep(v, q, after, fields, current, delim, trim); }
        Scan(Escape(v[1..], q) + [q] + after, fields, current + [v[0]], Some(q), delim, trim);
        { ScanEscaped(v[1..], q, after, fields, current + [v[0]], delim, trim); }
        Scan(after, fields, current + [v[0]] + v[1..], None, delim, trim);
        { assert current + [v[0]] + v[1..] == current + v; }
        Scan(after, fields, current + v, None, delim, trim);
      }
    }
  }

  /** A closing quote not followed by another ends quote mode. */
  lemma ClosingQuote(q: char, after: string, fields: seq<string>, current: string, delim: char, trim: bool)
    requires after == [] || after[0] != q
    ensures Scan([q] + after, fields, current, Some(q), delim, trim) == Scan(after, fields, current, None, delim, trim)
  {
    var s := [q] + after;
    assert s[1..] == after;
    assert !(|s| > 1 && s[1] == q);
  }

  /** Inside quotes, the escaped form of a character reads back as that
    * character. */
  lemma EscapedStep(v: string, q: char, after: string, fields: seq<string>, current: string, delim: char, trim: bool)
    requires v != []
    ensures Scan(Escape(v, q) + [q] + after, fields, current, Some(q), delim, trim) ==
      Scan(Escape(v[1..], q) + [q] + after, fields, current + [v[0]], Some(q), delim, trim)
  {
    var s := Escape(v, q) + [q] + after;
    var t := Escape(v[1..], q) + [q] + after;
    if v[0] == q {
      assert s == [q, q] + t;
      assert s[2..] == t;
    } else {
      assert s == [v[0]] + t;
      assert s[1..] == t;
    }
  }

  /** A cell `p` stands for the value `v` when it is the quoted form of `v`
    * in either quote character, or `v` itself holding no quote character and
    * no delimiter. */
  predicate Encodes(p: string, v: string, delim: char) {
    p == Quote(v, '"') || p == Quote(v, '\'') ||
    (p == v && delim !in v && forall k :: 0 <= k < |v| ==> !IsQuoteChar(v[k]))
  }

  /** One encoded cell followed by the end of the line or a delimiter. */
  lemma ScanCell(p: string, v: string, after: string, fields: seq<string>, delim: char, trim: bool)
    requires Encodes(p, v, delim) && !IsQuoteChar(delim)
    requires after == [] || after[0] == delim
    ensures Scan(p + after, fields, [], None, delim, trim) == Scan(after, fields, v, None, delim, trim)
  {
    if p == Quote(v, '"') {
      ScanQuoted(v, '"', after, fields, delim, trim);
    } else if p == Quote(v, '\'') {
      ScanQuoted(v, '\'', after, fields, delim, trim);
    } else {
      ScanPlain(v, after, fields, [], delim, trim);
      assert [] + v == v;
    }
  }

  /** A cell quoted with either quote character reads back as its value. */
  lemma ScanQuoted(v: string, q: char, after: string, fields: seq<string>, delim: char, trim: bool)
    requires IsQuoteChar(q) && (after == [] || after[0] != q)
    ensures Scan(Quote(v, q) + after, fields, [], None, delim, trim) == Scan(after, fields, v, None, delim, trim)
  {
    var body := Escape(v, q) + [q] + after;
    assert Quote(v, q) + after == [q] + body;
    assert (Quote(v, q) + after)[1..] == body;
    ScanEscaped(v, q, after, fields, [], delim, trim);
    assert [] + v == v;
  }

  lemma {:induction false} ScanPlain(v: string, after: string, fields: seq<string>, current: string, delim: char, trim: bool)
    requires delim !in v && forall k :: 0 <= k < |v| ==> !IsQuoteChar(v[k])
    ensures Scan(v + after, fields, current, None, delim, trim) == Scan(after, fields, current + v, None, delim, trim)
    decreases |v|
  {
    if v == [] {
      assert v + after == after;
      assert current + v == current;
    } else {
      assert (v + after)[1..] == v[1..] + after;
      assert v[0] in v;
      ScanPlain(v[1..], after, fields, current + [v[0]], delim, trim);
      assert current + [v[0]] + v[1..] == current + v;
    }
  }

  /** The first cell of an encoded line and the delimiter after it. */
  lemma ReadFirstCell(parts: seq<string>, vals: seq<string>, fields: seq<string>, delim: char, trim: bool)
    requires |parts| == |vals| >= 2 && !IsQuoteChar(delim) && Encodes(parts[0], vals[0], delim)
    ensures Scan(Join(parts, delim), fields, [], None, delim, trim) ==
      Scan(Join(parts[1..], delim), fields + [Field(vals[0], trim)], [], None, delim, trim)
  {
    var rest := Join(parts[1..], delim);
    var after := [delim] + rest;
    assert after[1..] == rest;
    calc {
      Scan(Join(parts, delim), fields, [], None, delim, trim);
      { assert Join(parts, delim) == parts[0] + after; }
      Scan(parts[0] + after, fields, [], None, delim, trim);
      { ScanCell(parts[0], vals[0], after, fields, delim, trim); }
      Scan(after, fields, vals[0], None, delim, trim);
      { ScanDelimiter(after, fields, vals[0], delim, trim); }
      Scan(rest, fields + [Field(vals[0], trim)], [], None, delim, trim);
    }
  }

  lemma MapFieldPrepend(fields: seq<string>, vals: seq<string>, trim: bool)
    requires vals != []
    ensures fields + [Field(vals[0], trim)] + MapField(vals[1..], trim) == fields + MapField(vals, trim)
  {
    AppendOne(fields, Field(vals[0], trim), MapField(vals[1..], trim));
  }

  /** A line the writers produce reads back as the values they were given:
    * delimiters inside quotes are not separators and a doubled quote is one
    * literal quote. */
  lemma {:induction false} ReadEncodedCells(parts: seq<string>, vals: seq<string>, fields: seq<string>, delim: char, trim: bool)
    requires |parts| == |vals| >= 1 && !IsQuoteChar(delim)
    requires forall k :: 0 <= k < |parts| ==> Encodes(parts[k], vals[k], delim)
    ensures Scan(Join(parts, delim), fields, [], None, delim, trim) == fields + MapField(vals, trim)
    decreases |parts|
  {
    if |parts| == 1 {
      ScanCell(parts[0], vals[0], [], fields, delim, trim);
      assert parts[0] + [] == parts[0];
    } else {
      var f := Field(vals[0], trim);
      assert forall k :: 0 <= k < |parts| - 1 ==> parts[1..][k] == parts[k + 1] && vals[1..][k] == vals[k + 1];
      ReadEncodedCells(parts[1..], vals[1..], fields + [f], delim, trim);
      ReadFirstCell(parts, vals, fields, delim, trim);
      MapFieldPrepend(fields, vals, trim);
    }
  }

  // ---------------------------------------------------------------------
  // detectCsvDelimiter
  // ---------------------------------------------------------------------

  /** The candidates, in the order the reduction visits them. */
  function Candidates(): seq<char> { [',', ';', '\t', '|'] }

  /** The reduction: the running choice `a` survives only a strictly smaller count. */
  function PickFrom(line: string, a: char, rest: seq<char>): char
    decreases |rest|
  {
    if rest == [] then a
    else PickFrom(line, if Count(line, a) > Count(line, rest[0]) then a else rest[0], rest[1..])
  }

  function DetectCsvDelimiter(line: string): char {
    PickFrom(line, Candidates()[0], Candidates()[1..])
  }

  lemma {:induction false} PickFromBest(line: string, a: char, rest: seq<char>)
    requires a !in rest && forall x, y :: 0 <= x < y < |rest| ==> rest[x] != rest[y]
    ensures PickFrom(line, a, rest) == a || PickFrom(line, a, rest) in rest
    ensures Count(line, PickFrom(line, a, rest)) >= Count(line, a)
    ensures forall k :: 0 <= k < |rest| ==> Count(line, PickFrom(line, a, rest)) >= Count(line, rest[k])
    ensures forall k :: 0 <= k < |rest| && rest[k] == PickFrom(line, a, rest) ==>
      forall j :: k < j < |rest| ==> Count(line, rest[j]) < Count(line, rest[k])
    ensures PickFrom(line, a, rest) == a ==> forall j :: 0 <= j < |rest| ==> Count(line, rest[j]) < Count(line, a)
    decreases |rest|
  {
    if rest != [] {
      var b := if Count(line, a) > Count(line, rest[0]) then a else rest[0];
      PickFromBest(line, b, rest[1..]);
      var r := PickFrom(line, a, rest);
      forall k | 0 <= k < |rest| && rest[k] == r
        ensures forall j :: k < j < |rest| ==> Count(line, rest[j]) < Count(line, rest[k])
      {
        if k > 0 {
          assert rest[1..][k - 1] == rest[k];
        }
      }
    }
  }

  /** The detected delimiter has the highest count among the candidates, and
    * every later candidate has a strictly lower count: ties go to the later
    * candidate, so a line with none of them yields '|'. */
  lemma DetectCsvDelimiterBest(line: string)
    ensures DetectCsvDelimiter(line) in Candidates()
    ensures forall c :: c in Candidates() ==> Count(line, DetectCsvDelimiter(line)) >= Count(line, c)
    ensures forall k, j :: 0 <= k < j < 4 && Candidates()[k] == DetectCsvDelimiter(line) ==>
      Count(line, Candidates()[j]) < Count(line, Candidates()[k])
    ensures (forall c :: c in Candidates() ==> c !in line) ==> DetectCsvDelimiter(line) == '|'
  {
    var cs := Candidates();
    PickFromBest(line, cs[0], cs[1..]);
    var r := DetectCsvDelimiter(line);
    forall k, j | 0 <= k < j < 4 && cs[k] == r
      ensures Count(line, cs[j]) < Count(line, cs[k])
    {
      if k > 0 {
        assert cs[1..][k - 1] == cs[k] && cs[1..][j - 1] == cs[j];
      }
    }
    if forall c :: c in cs ==> c !in line {
      forall c | c in cs ensures Count(line, c) == 0 { CountZero(line, c); }
    }
  }

  // ---------------------------------------------------------------------
  // parseCsvText
  // ---------------------------------------------------------------------

  /** `row[index] || ''`. */
  function CellAt(cells: seq<string>, j: nat): string {
    if j < |cells| then cells[j] else ""
  }

  /** The header loop: each header is assigned its cell; a repeated header
    * keeps its first position and its last cell. */
  function BuildRow(headers: seq<string>, cells: seq<string>): Record
    decreases |headers|
  {
    if headers == [] then []
    else Put(BuildRow(headers[..|headers| - 1], cells), headers[|headers| - 1], Str(CellAt(cells, |headers| - 1)))
  }

  /** Every row object has exactly the header keys, each once. */
  lemma {:induction false} BuildRowKeys(headers: seq<string>, cells: seq<string>)
    ensures forall k :: k in Keys(BuildRow(headers, cells)) <==> k in headers
    ensures UniqueKeys(BuildRow(headers, cells))
    decreases |headers|
  {
    if headers != [] {
      var init := headers[..|headers| - 1];
      var h := headers[|headers| - 1];
      var r := BuildRow(init, cells);
      BuildRowKeys(init, cells);
      GetPut(r, h, Str(CellAt(cells, |headers| - 1)), h);
      assert headers == init + [h];
      PutUnique(r, h, Str(CellAt(cells, |headers| - 1)));
    }
  }

  /** With distinct headers, each header maps to its cell, `''` past the
    * end of the row. */
  lemma {:induction false} BuildRowGet(headers: seq<string>, cells: seq<string>, j: nat)
    requires j < |headers|
    requires forall a, b :: 0 <= a < b < |headers| ==> headers[a] != headers[b]
    ensures Get(BuildRow(headers, cells), headers[j]) == Str(CellAt(cells, j))
    decreases |headers|
  {
    var n := |headers| - 1;
    var init := headers[..n];
    var r := BuildRow(init, cells);
    GetPut(r, headers[n], Str(CellAt(cells, n)), headers[j]);
    if j < n {
      BuildRowGet(init, cells, j);
    }
  }

  datatype CsvRow = ObjectRow(record: Record) | ArrayRow(cells: seq<string>)

  datatype CsvTable = CsvTable(data: seq<CsvRow>, headers: seq<string>, delimiter: char)

  predicate IsBlank(line: string) { Trim(line) == [] }

  /** The rows read from `lines` (the data part), one per line that is not
    * skipped, in order. */
  function DataRows(lines: seq<string>, headers: seq<string>, delim: char, hasHeaders: bool, skipEmpty: bool, trim: bool): seq<CsvRow>
    decreases |lines|
  {
    if lines == [] then []
    else
      var before := DataRows(lines[..|lines| - 1], headers, delim, hasHeaders, skipEmpty, trim);
      var line := lines[|lines| - 1];
      if skipEmpty && IsBlank(line) then before
      else
        var cells := CsvFields(line, delim, trim);
        before + [if hasHeaders then ObjectRow(BuildRow(headers, cells)) else ArrayRow(cells)]
  }

  lemma DataRowsStep(lines: seq<string>, line: string, headers: seq<string>, delim: char, hasHeaders: bool, skipEmpty: bool, trim: bool)
    ensures DataRows(lines + [line], headers, delim, hasHeaders, skipEmpty, trim) ==
      DataRows(lines, headers, delim, hasHeaders, skipEmpty, trim) +
      (if skipEmpty && IsBlank(line) then []
       else [if hasHeaders then ObjectRow(BuildRow(headers, CsvFields(line, delim, trim))) else ArrayRow(CsvFields(line, delim, trim))])
  {
    assert (lines + [line])[..|lines|] == lines;
  }

  /** The options `delimiter` (None when null or empty), `hasHeaders`,
    * `skipEmptyLines` and `trimWhitespace`. */
  function CsvTextSpec(text: string, delimiter: Option<char>, hasHeaders: bool, skipEmpty: bool, trim: bool): CsvTable {
    var lines := Split(text, '\n');
    var d := if delimiter.Some? then delimiter.value else DetectCsvDelimiter(lines[0]);
    var headers := if hasHeaders then CsvFields(lines[0], d, trim) else [];
    var start := if hasHeaders then 1 else 0;
    CsvTable(DataRows(lines[start..], headers, d, hasHeaders, skipEmpty, trim), headers, d)
  }

  /** parseCsvText. */
  method ParseCsvText(text: string, delimiter: Option<char>, hasHeaders: bool, skipEmpty: bool, trim: bool) returns (table: CsvTable)
    ensures table == CsvTextSpec(text, delimiter, hasHeaders, skipEmpty, trim)
  {
    var lines := Split(text, '\n');
    var d := if delimiter.Some? then delimiter.value else DetectCsvDelimiter(lines[0]);
    var headers: seq<string> := [];
    var start := 0;
    if hasHeaders {
      headers := ParseCsvLine(lines[0], d, trim);
      start := 1;
    }
    var data := ReadDataRows(lines, start, headers, d, hasHeaders, skipEmpty, trim);
    table := CsvTable(data, headers, d);
  }

  /** The row loop of parseCsvText, from line `start` on. */
  method ReadDataRows(lines: seq<string>, start: nat, headers: seq<string>, d: char, hasHeaders: bool, skipEmpty: bool, trim: bool)
    returns (data: seq<CsvRow>)
    requires start <= |lines|
    ensures data == DataRows(lines[start..], headers, d, hasHeaders, skipEmpty, trim)
  {
    data := [];
    var i := start;
    while i < |lines|
      invariant start <= i <= |lines|
      invariant data == DataRows(lines[start..i], headers, d, hasHeaders, skipEmpty, trim)
    {
      var line := lines[i];
      assert lines[start..i + 1] == lines[start..i] + [line];
      DataRowsStep(lines[start..i], line, headers, d, hasHeaders, skipEmpty, trim);
      if !(skipEmpty && IsBlank(line)) {
        var row := ParseCsvLine(line, d, trim);
        if hasHeaders {
          data := data + [ObjectRow(BuildRow(headers, row))];
        } else {
          data := data + [ArrayRow(row)];
        }
      }
      i := i + 1;
    }
    assert lines[start..i] == lines[start..];
  }

  /** Number of lines that are not blank. */
  function NonBlankCount(lines: seq<string>): nat {
    if lines == [] then 0
    else NonBlankCount(lines[..|lines| - 1]) + (if IsBlank(lines[|lines| - 1]) then 0 else 1)
  }

  /** One row per line; with skipping on, exactly one per non-blank line;
    * with headers, every row is an object whose keys are the headers. */
  lemma {:induction false} DataRowsShape(lines: seq<string>, headers: seq<string>, delim: char, hasHeaders: bool, skipEmpty: bool, trim: bool)
    ensures |DataRows(lines, headers, delim, hasHeaders, skipEmpty, trim)| == if skipEmpty then NonBlankCount(lines) else |lines|
    ensures hasHeaders ==> forall k :: 0 <= k < |DataRows(lines, headers, delim, hasHeaders, skipEmpty, trim)| ==>
      DataRows(lines, headers, delim, hasHeaders, skipEmpty, trim)[k].ObjectRow? &&
      forall key :: key in Keys(DataRows(lines, headers, delim, hasHeaders, skipEmpty, trim)[k].record) <==> key in headers
    decreases |lines|
  {
    if lines != [] {
      DataRowsShape(lines[..|lines| - 1], headers, delim, hasHeaders, skipEmpty, trim);
      BuildRowKeys(headers, CsvFields(lines[|lines| - 1], delim, trim));
    }
  }

  // ---------------------------------------------------------------------
  // arrayToCsv
  // ---------------------------------------------------------------------

  /** One cell: `row[header] || ''`, quoted when it is a string holding ','
    * or '"'; any other value is written as String() gives it. */
  function CsvCell(row: Record, header: string): string {
    var v := Or(Get(row, header), Str(""));
    if v.Str? && (',' in v.s || '"' in v.s) then Quote(v.s, '"') else ToStr(v)
  }

  function RowLine(row: Record, headers: seq<string>): string {
    Join(seq(|headers|, j requires 0 <= j < |headers| => CsvCell(row, headers[j])), ',')
  }

  /** The headers: the given list, else the keys of the first row. */
  function CsvHeaders(data: seq<Record>, headers: Option<seq<string>>): seq<string>
    requires data != []
  {
    if headers.Some? then headers.value else Keys(data[0])
  }

  function CsvLines(data: seq<Record>, headers: seq<string>): (r: seq<string>)
    ensures |r| == |data| + 1
  {
    [Join(headers, ',')] + seq(|data|, i requires 0 <= i < |data| => RowLine(data[i], headers))
  }

  function ArrayToCsvSpec(data: seq<Record>, headers: Option<seq<string>>): string {
    if data == [] then "" else Join(CsvLines(data, CsvHeaders(data, headers)), '\n')
  }

  /** arrayToCsv. */
  method ArrayToCsv(data: seq<Record>, headers: Option<seq<string>>) returns (csv: string)
    ensures csv == ArrayToCsvSpec(data, headers)
  {
    if |data| == 0 {
      return "";
    }
    var hs := if headers.Some? then headers.value else Keys(data[0]);
    var lines := [Join(hs, ',')];
    var i := 0;
    while i < |data|
      invariant 0 <= i <= |data|
      invariant lines == CsvLines(data[..i], hs)
    {
      var cells: seq<string> := [];
      var j := 0;
      while j < |hs|
        invariant 0 <= j <= |hs|
        invariant cells == seq(j, k requires 0 <= k < j => CsvCell(data[i], hs[k]))
      {
        cells := cells + [CsvCell(data[i], hs[j])];
        j := j + 1;
      }
      assert data[..i + 1][..i] == data[..i];
      lines := lines + [Join(cells, ',')];
      i := i + 1;
    }
    assert data[..i] == data;
    csv := Join(lines, '\n');
  }

  lemma {:induction false} JoinNonEmpty(parts: seq<string>, sep: char)
    requires |parts| >= 2
    ensures sep in Join(parts, sep)
  {
    assert Join(parts, sep) == parts[0] + [sep] + Join(parts[1..], sep);
    assert Join(parts, sep)[|parts[0]|] == sep;
  }

  /** The output is empty exactly for an empty array; otherwise it is the
    * header line followed by one line per row, as long as no header and no
    * cell holds a line break. */
  lemma ArrayToCsvLines(data: seq<Record>, headers: Option<seq<string>>)
    ensures ArrayToCsvSpec(data, headers) == "" <==> data == []
    ensures (data != [] &&
        forall k :: 0 <= k < |CsvLines(data, CsvHeaders(data, headers))| ==> '\n' !in CsvLines(data, CsvHeaders(data, headers))[k]) ==>
      Split(ArrayToCsvSpec(data, headers), '\n') == CsvLines(data, CsvHeaders(data, headers))
  {
    if data != [] {
      var ls := CsvLines(data, CsvHeaders(data, headers));
      JoinNonEmpty(ls, '\n');
      if forall k :: 0 <= k < |ls| ==> '\n' !in ls[k] {
        SplitJoin(ls, '\n');
      }
    }
  }

  /** A cell value `arrayToCsv` can write without losing it: a string that
    * gets quoted, or one with no quote character at all. */
  predicate RoundTrips(v: JsValue) {
    v.Str? && (',' in v.s || '"' in v.s || forall k :: 0 <= k < |v.s| ==> !IsQuoteChar(v.s[k]))
  }

  /** Reading back a row line with `parseCsvLine` (comma, no trimming) gives
    * the row's values whenever every value round-trips. */
  lemma RowLineReadsBack(row: Record, headers: seq<string>)
    requires |headers| >= 1
    requires forall j :: 0 <= j < |headers| ==> RoundTrips(Or(Get(row, headers[j]), Str("")))
    ensures CsvFields(RowLine(row, headers), ',', false) ==
      seq(|headers|, j requires 0 <= j < |headers| => ToStr(Or(Get(row, headers[j]), Str(""))))
  {
    var parts := seq(|headers|, j requires 0 <= j < |headers| => CsvCell(row, headers[j]));
    var vals := seq(|headers|, j requires 0 <= j < |headers| => ToStr(Or(Get(row, headers[j]), Str(""))));
    forall k | 0 <= k < |parts| ensures Encodes(parts[k], vals[k], ',') {
      var v := Or(Get(row, headers[k]), Str(""));
      if !(',' in v.s || '"' in v.s) {
        assert ',' !in vals[k];
      }
    }
    ReadEncodedCells(parts, vals, [], ',', false);
    MapFieldKeep(vals);
  }

  /** `arrayToCsv` writes a value holding an apostrophe but no ',' or '"'
    * as it is... */
  lemma ApostropheWrittenPlain()
    ensures CsvCell([("name", Str("O'Brien"))], "name") == "O'Brien"
  {
    var row := [("name", Str("O'Brien"))];
    assert Get(row, "name") == Str("O'Brien");
    assert ',' !in "O'Brien" && '"' !in "O'Brien";
  }

  /** ...and `parseCsvLine` reads the apostrophe as an opening quote, so the
    * value comes back without it. */
  lemma ApostropheReadBack()
    ensures CsvFields("O'Brien", ',', false) == ["OBrien"]
  {
    var s := "O'Brien";
    assert s[1..] == "'Brien" && s[1..][1..] == "Brien";
    ScanOrdinary(s, [], [], None, ',', false);
    assert [] + [s[0]] == "O";
    ScanOpenQuote(s[1..], [], "O", ',', false);
    assert s[1..][0] == '\'';
    assert '\'' !in "Brien";
    ScanInQuotes("Brien", "O", '\'');
    assert "O" + "Brien" == "OBrien";
  }

  lemma ScanOpenQuote(rest: string, fields: seq<string>, current: string, delim: char, trim: bool)
    requires rest != [] && IsQuoteChar(rest[0])
    ensures Scan(rest, fields, current, None, delim, trim) == Scan(rest[1..], fields, current, Some(rest[0]), delim, trim)
  {}

  lemma {:induction false} ScanInQuotes(rest: string, current: string, q: char)
    requires q !in rest
    ensures Scan(rest, [], current, Some(q), ',', false) == [current + rest]
    decreases |rest|
  {
    if rest == [] {
      assert current + rest == current;
    } else {
      assert rest[0] in rest;
      ScanInQuotes(rest[1..], current + [rest[0]], q);
      assert current + [rest[0]] + rest[1..] == current + rest;
    }
  }

  // ---------------------------------------------------------------------
  // getObjectKeys and getObjectDepth
  // ---------------------------------------------------------------------

  /** typeof v === 'object' && v !== null. */
  predicate IsObjectLike(v: JsValue) { v.Obj? || v.Arr? }

  /** Number of own enumerable properties. */
  function Width(v: JsValue): nat {
    match v
    case Obj(fields) => |fields|
    case Arr(items) => |items|
    case _ => 0
  }

  /** The i-th property: its key (an array index is its decimal string) and value. */
  function Entry(v: JsValue, i: nat): (string, JsValue)
    requires i < Width(v)
  {
    if v.Obj? then v.fields[i] else (NatToString(i), v.items[i])
  }

  lemma EntrySmaller(v: JsValue, i: nat)
    requires i < Width(v)
    ensures Entry(v, i).1 < v
  {
    if v.Obj? {
      assert v.fields[i] in v.fields;
    } else {
      assert v.items[i] in v.items;
    }
  }

  function FullKey(prefix: string, key: string): string {
    if prefix == [] then key else prefix + "." + key
  }

  /** getObjectKeys(v, prefix): each own key as a dotted path, followed by
    * the paths below it when its value is a non-array object. */
  function ObjectKeys(v: JsValue, prefix: string): seq<string>
    decreases v, Width(v) + 1
  {
    if IsObjectLike(v) then KeysFrom(v, 0, prefix) else []
  }

  function KeysFrom(v: JsValue, i: nat, prefix: string): seq<string>
    requires i <= Width(v)
    decreases v, Width(v) - i
  {
    if i == Width(v) then []
    else
      var e := Entry(v, i);
      var key := FullKey(prefix, e.0);
      EntrySmaller(v, i);
      [key] + (if e.1.Obj? then ObjectKeys(e.1, key) else []) + KeysFrom(v, i + 1, prefix)
  }

  /** Every own key is listed, and nothing is listed for a non-object. */
  lemma {:induction false} KeysFromListsOwn(v: JsValue, i: nat, prefix: string)
    requires i <= Width(v)
    ensures forall k :: i <= k < Width(v) ==> FullKey(prefix, Entry(v, k).0) in KeysFrom(v, i, prefix)
    ensures |KeysFrom(v, i, prefix)| >= Width(v) - i
    decreases Width(v) - i
  {
    if i < Width(v) {
      KeysFromListsOwn(v, i + 1, prefix);
    }
  }

  /** Without object-valued properties the keys are exactly the own keys,
    * in order: arrays are not entered. */
  lemma {:induction false} FlatKeys(v: JsValue, i: nat, prefix: string)
    requires i <= Width(v)
    requires forall k :: i <= k < Width(v) ==> !Entry(v, k).1.Obj?
    ensures KeysFrom(v, i, prefix) == seq(Width(v) - i, k requires 0 <= k < Width(v) - i => FullKey(prefix, Entry(v, i + k).0))
    decreases Width(v) - i
  {
    if i < Width(v) {
      FlatKeys(v, i + 1, prefix);
      assert !Entry(v, i).1.Obj?;
      assert KeysFrom(v, i, prefix) == [FullKey(prefix, Entry(v, i).0)] + [] + KeysFrom(v, i + 1, prefix);
      OwnKeysCons(v, i, prefix);
    }
  }

  /** The own keys from position `i` on are the key at `i` followed by those
    * after it. */
  lemma OwnKeysCons(v: JsValue, i: nat, prefix: string)
    requires i < Width(v)
    ensures seq(Width(v) - i, k requires 0 <= k < Width(v) - i => FullKey(prefix, Entry(v, i + k).0)) ==
      [FullKey(prefix, Entry(v, i).0)] + seq(Width(v) - (i + 1), k requires 0 <= k < Width(v) - (i + 1) => FullKey(prefix, Entry(v, i + 1 + k).0))
  {
    var rest := seq(Width(v) - (i + 1), k requires 0 <= k < Width(v) - (i + 1) => FullKey(prefix, Entry(v, i + 1 + k).0));
    var all := seq(Width(v) - i, k requires 0 <= k < Width(v) - i => FullKey(prefix, Entry(v, i + k).0));
    forall k | 1 <= k < |all| ensures all[k] == rest[k - 1] {
      assert i + 1 + (k - 1) == i + k;
    }
  }

  lemma ObjectKeysShape(v: JsValue, prefix: string)
    ensures !IsObjectLike(v) ==> ObjectKeys(v, prefix) == []
    ensures IsObjectLike(v) ==> |ObjectKeys(v, prefix)| >= Width(v)
    ensures IsObjectLike(v) ==>
      forall k :: 0 <= k < Width(v) ==> FullKey(prefix, Entry(v, k).0) in ObjectKeys(v, prefix)
  {
    if IsObjectLike(v) {
      KeysFromListsOwn(v, 0, prefix);
    }
  }

  /** A path the entry at `k` accounts for: its own dotted key, or a path
    * below it when its value is a non-array object. */
  predicate EntryLists(v: JsValue, k: nat, prefix: string, p: string)
    requires k < Width(v)
    decreases v, 0
  {
    var e := Entry(v, k);
    EntrySmaller(v, k);
    p == FullKey(prefix, e.0) || (e.1.Obj? && p in ObjectKeys(e.1, FullKey(prefix, e.0)))
  }

  lemma {:induction false} KeysFromMembers(v: JsValue, i: nat, prefix: string, p: string)
    requires i <= Width(v)
    ensures p in KeysFrom(v, i, prefix) <==> exists k :: i <= k < Width(v) && EntryLists(v, k, prefix, p)
    decreases Width(v) - i
  {
    if i < Width(v) {
      KeysFromMembers(v, i + 1, prefix, p);
      var e := Entry(v, i);
      var key := FullKey(prefix, e.0);
      EntrySmaller(v, i);
      var below := if e.1.Obj? then ObjectKeys(e.1, key) else [];
      assert KeysFrom(v, i, prefix) == [key] + below + KeysFrom(v, i + 1, prefix);
      assert p in [key] + below <==> EntryLists(v, i, prefix, p);
    }
  }

  /** A path is listed exactly when some own property accounts for it:
    * it is that property's dotted key, or lies below a non-array object
    * value. Nothing is listed for a non-object. */
  lemma ObjectKeysMembers(v: JsValue, prefix: string, p: string)
    ensures p in ObjectKeys(v, prefix) <==>
      IsObjectLike(v) && exists k :: 0 <= k < Width(v) && EntryLists(v, k, prefix, p)
  {
    if IsObjectLike(v) {
      KeysFromMembers(v, 0, prefix, p);
    }
  }

  /** getObjectDepth: 0 for a non-object, else one more than the deepest
    * object-valued property (arrays count as objects here). */
  function ObjectDepth(v: JsValue): nat
    decreases v, Width(v) + 1
  {
    if IsObjectLike(v) then DepthFrom(v, 0) + 1 else 0
  }

  function DepthFrom(v: JsValue, i: nat): nat
    requires i <= Width(v)
    decreases v, Width(v) - i
  {
    if i == Width(v) then 0
    else
      var e := Entry(v, i);
      EntrySmaller(v, i);
      Max(if IsObjectLike(e.1) then ObjectDepth(e.1) else 0, DepthFrom(v, i + 1))
  }

  lemma {:induction false} DepthFromBounds(v: JsValue, i: nat)
    requires i <= Width(v)
    ensures forall k :: i <= k < Width(v) ==> DepthFrom(v, i) >= ObjectDepth(Entry(v, k).1)
    ensures DepthFrom(v, i) == 0 || exists k :: i <= k < Width(v) && DepthFrom(v, i) == ObjectDepth(Entry(v, k).1)
    decreases Width(v) - i
  {
    if i < Width(v) {
      DepthFromBounds(v, i + 1);
    }
  }

  /** The depth of an object exceeds that of every property value by at
    * least one, and equals one more than some property's depth (or 1). */
  lemma ObjectDepthProperties(v: JsValue)
    ensures ObjectDepth(v) == 0 <==> !IsObjectLike(v)
    ensures IsObjectLike(v) ==> forall k :: 0 <= k < Width(v) ==> ObjectDepth(v) >= ObjectDepth(Entry(v, k).1) + 1
    ensures IsObjectLike(v) ==>
      ObjectDepth(v) == 1 || exists k :: 0 <= k < Width(v) && ObjectDepth(v) == ObjectDepth(Entry(v, k).1) + 1
  {
    if IsObjectLike(v) {
      DepthFromBounds(v, 0);
    }
  }
}
