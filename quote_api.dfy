/** QuoteApi: the client-side checks and arithmetic of the quote API — the
  * validation of a quote before it is sent (required fields, line checks,
  * line totals, subtotal, VAT and total), the quote reference and the
  * query string of the quote list. */
module QuoteApi {
  import opened Basics
  import opened Text
  import opened JsValues

  /** A quote line. Absent numbers are None; a number's truthiness is its
    * being non-zero. */
  datatype Line = Line(stockItemId: JsValue, description: JsValue,
                       quantity: Option<real>, unitPrice: Option<real>, total: Option<real>)

  /** The quote object handed to validateQuoteData. `lines` is None when the
    * property is absent. */
  datatype Quote = Quote(customerId: JsValue, quoteDate: JsValue, lines: Option<seq<Line>>,
                         taxRate: Option<real>, subtotal: Option<real>, tax: Option<real>,
                         total: Option<real>, lastModified: Option<string>)

  // ---------------------------------------------------------------------
  // Required fields

  /** The required fields that are falsy, in the order checked. */
  function Missing(q: Quote): (r: seq<string>)
    ensures "customerId" in r <==> !Truthy(q.customerId)
    ensures "quoteDate" in r <==> !Truthy(q.quoteDate)
    ensures |r| <= 2
  {
    (if Truthy(q.customerId) then [] else ["customerId"]) +
    (if Truthy(q.quoteDate) then [] else ["quoteDate"])
  }

  // ---------------------------------------------------------------------
  // Line checks

  /** The complaint about the line at `index`, if any, checked in order:
    * something to quote, a positive quantity, a positive unit price. */
  function LineError(line: Line, index: nat): (r: Option<string>)
    ensures r.None? <==> (Truthy(line.stockItemId) || Truthy(line.description)) &&
                         line.quantity.Some? && line.quantity.value > 0.0 &&
                         line.unitPrice.Some? && line.unitPrice.value > 0.0
  {
    var n := NatToString(index + 1);
    if !Truthy(line.stockItemId) && !Truthy(line.description) then
      Some("Line item " + n + " must have either stockItemId or description")
    else if line.quantity.None? || line.quantity.value == 0.0 || line.quantity.value <= 0.0 then
      Some("Line item " + n + " must have a valid quantity")
    else if line.unitPrice.None? || line.unitPrice.value == 0.0 || line.unitPrice.value < 0.0 then
      Some("Line item " + n + " must have a valid unit price")
    else None
  }

  /** The complaint about the first bad line from position `i` on. */
  function FirstLineError(lines: seq<Line>, i: nat): (r: Option<string>)
    requires i <= |lines|
    ensures r.None? <==> forall k :: i <= k < |lines| ==> LineError(lines[k], k).None?
    ensures r.Some? ==> exists k :: i <= k < |lines| && r == LineError(lines[k], k) &&
                                     forall j :: i <= j < k ==> LineError(lines[j], j).None?
    decreases |lines| - i
  {
    if i == |lines| then None
    else if LineError(lines[i], i).Some? then LineError(lines[i], i)
    else FirstLineError(lines, i + 1)
  }

  /** The forEach over the lines: stops at the first complaint. */
  method CheckLines(lines: seq<Line>) returns (err: Option<string>)
    ensures err == FirstLineError(lines, 0)
  {
    var i := 0;
    while i < |lines|
      invariant 0 <= i <= |lines|
      invariant FirstLineError(lines, 0) == FirstLineError(lines, i)
    {
      var e := LineError(lines[i], i);
      if e.Some? {
        return e;
      }
      i := i + 1;
    }
    return None;
  }

  // ---------------------------------------------------------------------
  // Totals

  /** A line with its total set to quantity times unit price. */
  function WithTotal(line: Line): (r: Line)
    ensures r.total == Some(Times(OrZero(line.quantity), OrZero(line.unitPrice)))
    ensures r.(total := line.total) == line
  {
    line.(total := Some(Times(OrZero(line.quantity), OrZero(line.unitPrice))))
  }

  /** `lines.reduce((sum, line) => sum + (line.total || 0), 0)`. */
  function SumTotals(lines: seq<Line>): real
    decreases |lines|
  {
    if lines == [] then 0.0 else SumTotals(lines[..|lines| - 1]) + OrZero(lines[|lines| - 1].total)
  }

  /** The map and the reduce: the lines with their totals, and the subtotal. */
  method ComputeTotals(lines: seq<Line>) returns (out: seq<Line>, subtotal: real)
    ensures |out| == |lines|
    ensures forall k :: 0 <= k < |lines| ==> out[k] == WithTotal(lines[k])
    ensures subtotal == SumTotals(out)
  {
    out := [];
    subtotal := 0.0;
    var i := 0;
    while i < |lines|
      invariant 0 <= i <= |lines|
      invariant |out| == i
      invariant forall k :: 0 <= k < i ==> out[k] == WithTotal(lines[k])
      invariant subtotal == SumTotals(out)
    {
      var line := WithTotal(lines[i]);
      assert (out + [line])[..i] == out;
      out := out + [line];
      subtotal := subtotal + OrZero(line.total);
      i := i + 1;
    }
  }

  /** `quoteData.taxRate || 0.15`. */
  function TaxRate(q: Quote): (r: real)
    ensures r != 0.0
  {
    if q.taxRate.Some? && q.taxRate.value != 0.0 then q.taxRate.value else 0.15
  }

  /** The total of each line, the subtotal their sum. */
  lemma {:induction false} SumOfLineTotals(lines: seq<Line>)
    requires forall k :: 0 <= k < |lines| ==> lines[k].total.Some? && lines[k].total.value > 0.0
    ensures SumTotals(lines) >= 0.0
    ensures lines != [] ==> SumTotals(lines) > 0.0
    decreases |lines|
  {
    if lines != [] {
      var init := lines[..|lines| - 1];
      assert forall k :: 0 <= k < |init| ==> init[k] == lines[k];
      SumOfLineTotals(init);
    }
  }

  // ---------------------------------------------------------------------
  // validateQuoteData

  /** The quote being sent; validateQuoteData rewrites it in place. */
  class QuoteRequest {
    var data: Quote

    constructor(data: Quote)
      ensures this.data == data
    {
      this.data := data;
    }

    /** validateQuoteData: the missing required fields, then the first bad
      * line, refuse the quote and leave it untouched; otherwise its lines
      * get their totals, the subtotal is their sum, the tax is the subtotal
      * at the quote's rate (15% when it has none) and the total is the two
      * together. The result is the quote stamped with `now`. */
    method ValidateQuoteData(now: string) returns (r: Result<Quote, string>)
      modifies this
      ensures Missing(old(data)) != [] ==>
        data == old(data) && r == Err("Missing required fields: " + JoinWith(Missing(old(data)), ", "))
      ensures Missing(old(data)) == [] && old(data).lines.Some? && FirstLineError(old(data).lines.value, 0).Some? ==>
        data == old(data) && r == Err(FirstLineError(old(data).lines.value, 0).value)
      ensures Missing(old(data)) == [] && old(data).lines.None? ==>
        data == old(data) && r == Ok(data.(lastModified := Some(now)))
      ensures Missing(old(data)) == [] && old(data).lines.Some? && FirstLineError(old(data).lines.value, 0).None? ==>
        (var lines := old(data).lines.value;
         data.lines.Some? && |data.lines.value| == |lines| &&
         (forall k :: 0 <= k < |lines| ==> data.lines.value[k] == WithTotal(lines[k])) &&
         (var sub := SumTotals(data.lines.value);
          data.subtotal == Some(sub) &&
          data.tax == Some(Times(sub, TaxRate(old(data)))) &&
          data.total == Some(sub + Times(sub, TaxRate(old(data))))) &&
         data == old(data).(lines := data.lines, subtotal := data.subtotal, tax := data.tax, total := data.total) &&
         r == Ok(data.(lastModified := Some(now))))
    {
      var missing := Missing(data);
      if missing != [] {
        return Err("Missing required fields: " + JoinWith(missing, ", "));
      }
      if data.lines.Some? {
        var err := CheckLines(data.lines.value);
        if err.Some? {
          return Err(err.value);
        }
        var lines, subtotal := ComputeTotals(data.lines.value);
        var tax := Times(subtotal, TaxRate(data));
        data := data.(lines := Some(lines), subtotal := Some(subtotal), tax := Some(tax), total := Some(subtotal + tax));
        assert data.lines.value == lines;
      }
      return Ok(data.(lastModified := Some(now)));
    }
  }

  /** A quote that passes has a positive total on every line, a subtotal
    * that is positive exactly when there are lines, and a total that is the
    * subtotal grown by the tax rate. */
  lemma AcceptedTotals(before: Quote, after: Quote)
    requires Missing(before) == [] && before.lines.Some? && FirstLineError(before.lines.value, 0).None?
    requires after.lines.Some? && |after.lines.value| == |before.lines.value|
    requires forall k :: 0 <= k < |before.lines.value| ==> after.lines.value[k] == WithTotal(before.lines.value[k])
    requires after.subtotal == Some(SumTotals(after.lines.value))
    requires after.total == Some(after.subtotal.value + Times(after.subtotal.value, TaxRate(before)))
    ensures forall k :: 0 <= k < |after.lines.value| ==>
      (var line := after.lines.value[k];
       line.quantity.Some? && line.unitPrice.Some? &&
       line.total == Some(Times(line.quantity.value, line.unitPrice.value)) && line.total.value > 0.0)
    ensures after.subtotal.value >= 0.0
    ensures after.subtotal.value > 0.0 <==> after.lines.value != []
    ensures after.total.value == Times(after.subtotal.value, 1.0 + TaxRate(before))
  {
    var lines := before.lines.value;
    var out := after.lines.value;
    forall k | 0 <= k < |out|
      ensures out[k].quantity.Some? && out[k].unitPrice.Some? &&
              out[k].total == Some(Times(out[k].quantity.value, out[k].unitPrice.value)) && out[k].total.value > 0.0
    {
      assert LineError(lines[k], k).None?;
      assert out[k].quantity == lines[k].quantity && out[k].unitPrice == lines[k].unitPrice;
      ProductPositive(out[k].quantity.value, out[k].unitPrice.value);
    }
    SumOfLineTotals(out);
    if out == [] {
      assert SumTotals(out) == 0.0;
    }
    var sub, rate := after.subtotal.value, TaxRate(before);
    assert Times(sub, 1.0 + rate) == sub + Times(sub, rate);
  }

  lemma ProductPositive(a: real, b: real)
    requires a > 0.0 && b > 0.0
    ensures Times(a, b) > 0.0
  {}

  // ---------------------------------------------------------------------
  // Quote reference

  /** `n.toString().padStart(2, '0')`. */
  function TwoDigits(n: nat): string {
    PadStart(NatToString(n), 2, '0')
  }

  /** generateQuoteReference, given the date and, for a falsy sequence, the
    * random draw `Math.floor(Math.random() * 1000)`. */
  function QuoteReference(year: nat, month: nat, day: nat, sequence: JsValue, draw: nat): string {
    "QT" + YearSuffix(year) + TwoDigits(month) + TwoDigits(day) + "-" + SequenceText(sequence, draw)
  }

  /** `options.sequence || <the draw padded to three digits>`. */
  function SequenceText(sequence: JsValue, draw: nat): string {
    if Truthy(sequence) then ToStr(sequence) else PadStart(NatToString(draw), 3, '0')
  }

  /** The positions of the parts of a reference. */
  lemma ReferenceParts(y: string, m: string, d: string, s: string)
    requires |y| == 2 && |m| == 2 && |d| == 2
    ensures var r := "QT" + y + m + d + "-" + s;
      |r| >= 9 && r[..2] == "QT" && r[2..4] == y && r[4..6] == m && r[6..8] == d && r[8] == '-' && r[9..] == s
  {
    var r := "QT" + y + m + d + "-" + s;
    assert r[..2] == "QT";
    assert r[2..4] == y;
    assert r[4..6] == m;
    assert r[6..8] == d;
    assert r[9..] == s;
  }

  /** Numbers below 100 print in at most two digits. */
  lemma NatToStringShort(n: nat)
    requires n < 100
    ensures |NatToString(n)| <= 2
  {
    if n >= 10 {
      assert NatToString(n) == NatToString(n / 10) + [DigitChar(n % 10)];
    }
  }

  /** A month or a day pads to two digits that read back as the number. */
  lemma TwoDigitsShape(n: nat)
    requires n < 100
    ensures |TwoDigits(n)| == 2 && AllDigits(TwoDigits(n))
    ensures ParseIntPrefix(TwoDigits(n)) == Some(n as int)
  {
    var s := NatToString(n);
    NatToStringShort(n);
    PadStartShape(s, 2, '0');
    if |s| == 1 {
      assert TwoDigits(n) == ['0'] + s;
    } else {
      assert TwoDigits(n) == s;
    }
    ParseIntOfPaddedNat(n, 2);
  }

  /** For a calendar date from year 10 on, the reference is "QT", six
    * digits, a dash and the sequence. */
  lemma QuoteReferenceShape(year: nat, month: nat, day: nat, sequence: JsValue, draw: nat)
    requires year >= 10 && 1 <= month <= 12 && 1 <= day <= 31
    ensures var r := QuoteReference(year, month, day, sequence, draw);
      |r| >= 9 && r[..2] == "QT" && r[8] == '-' &&
      AllDigits(r[2..4]) && AllDigits(r[4..6]) && AllDigits(r[6..8]) &&
      r[9..] == SequenceText(sequence, draw)
  {
    var y, m, d := YearSuffix(year), TwoDigits(month), TwoDigits(day);
    TwoDigitsShape(month);
    TwoDigitsShape(day);
    ReferenceParts(y, m, d, SequenceText(sequence, draw));
  }

  /** The month and the day read back from positions 4-5 and 6-7. */
  lemma QuoteReferenceDate(year: nat, month: nat, day: nat, sequence: JsValue, draw: nat)
    requires year >= 10 && 1 <= month <= 12 && 1 <= day <= 31
    ensures var r := QuoteReference(year, month, day, sequence, draw);
      |r| >= 9 &&
      ParseIntPrefix(r[4..6]) == Some(month as int) &&
      ParseIntPrefix(r[6..8]) == Some(day as int)
  {
    TwoDigitsShape(month);
    TwoDigitsShape(day);
    ReferenceParts(YearSuffix(year), TwoDigits(month), TwoDigits(day), SequenceText(sequence, draw));
  }

  /** A truthy sequence is used as given; otherwise the draw, padded to
    * three digits, reads back as the draw. */
  lemma SequenceTextChoice(sequence: JsValue, draw: nat)
    ensures Truthy(sequence) ==> SequenceText(sequence, draw) == ToStr(sequence)
    ensures !Truthy(sequence) ==>
      |SequenceText(sequence, draw)| >= 3 && ParseIntPrefix(SequenceText(sequence, draw)) == Some(draw as int)
  {
    PadStartShape(NatToString(draw), 3, '0');
    ParseIntOfPaddedNat(draw, 3);
  }

  // ---------------------------------------------------------------------
  // getQuotes

  /** A filter value that is left out of the query: null, undefined or ''. */
  predicate Omitted(v: JsValue) {
    v.Null? || v.Undefined? || v == Str([])
  }

  /** The filters that reach the query string, in their order. */
  function QueryParams(filters: Record): (r: Record)
    ensures forall kv :: kv in r <==> kv in filters && !Omitted(kv.1)
    ensures |r| <= |filters|
  {
    if filters == [] then []
    else (if Omitted(filters[0].1) then [] else [filters[0]]) + QueryParams(filters[1..])
  }

  // ---------------------------------------------------------------------
  // URLSearchParams serialisation (application/x-www-form-urlencoded)

  /** The characters the form encoding leaves as they are: ASCII letters and
    * digits and `*-._`. */
  predicate FormSafe(c: char) {
    'a' <= c <= 'z' || 'A' <= c <= 'Z' || '0' <= c <= '9' || c == '*' || c == '-' || c == '.' || c == '_'
  }

  /** The characters an encoded string is made of. */
  predicate EncodedChar(c: char) {
    FormSafe(c) || c == '+' || c == '%'
  }

  /** The UTF-8 bytes of a code point: one byte below 0x80, otherwise a
    * lead byte from 0xC0 on and continuation bytes 0x80-0xBF. */
  function Utf8(cp: nat): (r: seq<nat>)
    requires cp < 0x11_0000
    ensures 1 <= |r| <= 4
    ensures |r| == 1 <==> cp < 0x80
    ensures |r| == 1 ==> r[0] == cp
    ensures |r| > 1 ==> 0xC0 <= r[0] < 0xF8 && forall k :: 1 <= k < |r| ==> 0x80 <= r[k] < 0xC0
  {
    if cp < 0x80 then [cp]
    else if cp < 0x800 then [0xC0 + cp / 0x40, 0x80 + cp % 0x40]
    else if cp < 0x1_0000 then [0xE0 + cp / 0x1000, 0x80 + cp / 0x40 % 0x40, 0x80 + cp % 0x40]
    else [0xF0 + cp / 0x4_0000, 0x80 + cp / 0x1000 % 0x40, 0x80 + cp / 0x40 % 0x40, 0x80 + cp % 0x40]
  }

  /** An upper-case hexadecimal digit. */
  function HexDigit(d: nat): (c: char)
    requires d < 16
    ensures FormSafe(c)
  {
    "0123456789ABCDEF"[d]
  }

  /** `%XX` for each byte. */
  function PercentBytes(bytes: seq<nat>): (r: string)
    requires forall k :: 0 <= k < |bytes| ==> bytes[k] < 256
    ensures |r| == 3 * |bytes|
    ensures forall k :: 0 <= k < |r| ==> EncodedChar(r[k])
  {
    if bytes == [] then []
    else ['%', HexDigit(bytes[0] / 16), HexDigit(bytes[0] % 16)] + PercentBytes(bytes[1..])
  }

  /** One character: a space becomes '+', a safe character stays, anything
    * else becomes its UTF-8 bytes, percent-encoded. */
  function FormEncodeChar(c: char): (r: string)
    ensures r == [c] <==> FormSafe(c)
    ensures c == ' ' <==> r == "+"
    ensures |r| >= 1 && forall k :: 0 <= k < |r| ==> EncodedChar(r[k])
  {
    if c == ' ' then "+"
    else if FormSafe(c) then [c]
    else PercentBytes(Utf8(c as int))
  }

  /** The form encoding of a string, character by character. */
  function FormEncode(s: string): (r: string)
    ensures forall k :: 0 <= k < |r| ==> EncodedChar(r[k])
    ensures |r| >= |s|
  {
    if s == [] then [] else FormEncodeChar(s[0]) + FormEncode(s[1..])
  }

  /** Encoding leaves a string of safe characters as it is. */
  lemma {:induction false} FormEncodeSafe(s: string)
    requires forall k :: 0 <= k < |s| ==> FormSafe(s[k])
    ensures FormEncode(s) == s
    decreases |s|
  {
    if s != [] {
      FormEncodeSafe(s[1..]);
      assert s == [s[0]] + s[1..];
    }
  }

  /** An encoded string holds neither of the query separators. */
  lemma FormEncodeNoSeparators(s: string)
    ensures '&' !in FormEncode(s) && '=' !in FormEncode(s)
  {
    var r := FormEncode(s);
    assert forall k :: 0 <= k < |r| ==> r[k] != '&' && r[k] != '=';
  }

  /** `key=value`, both form-encoded. */
  function Param(kv: (string, JsValue)): string {
    FormEncode(kv.0) + "=" + FormEncode(ToStr(kv.1))
  }

  /** A parameter splits at '=' back into its encoded key and value. */
  lemma ParamReadsBack(kv: (string, JsValue))
    ensures Split(Param(kv), '=') == [FormEncode(kv.0), FormEncode(ToStr(kv.1))]
  {
    var a, b := FormEncode(kv.0), FormEncode(ToStr(kv.1));
    FormEncodeNoSeparators(kv.0);
    FormEncodeNoSeparators(ToStr(kv.1));
    SplitJoin([a, b], '=');
    assert Join([a, b], '=') == a + ['='] + Join([b], '=');
  }

  /** `queryParams.toString()`: the parameters joined with '&'. */
  function Query(params: Record): string {
    Join(seq(|params|, k requires 0 <= k < |params| => Param(params[k])), '&')
  }

  /** A non-empty query splits at '&' into one encoded `key=value` per
    * parameter, in order. */
  lemma QueryReadsBack(params: Record)
    requires params != []
    ensures var parts := Split(Query(params), '&');
      |parts| == |params| &&
      forall k :: 0 <= k < |params| ==>
        parts[k] == Param(params[k]) &&
        Split(parts[k], '=') == [FormEncode(params[k].0), FormEncode(ToStr(params[k].1))]
  {
    var ps := seq(|params|, k requires 0 <= k < |params| => Param(params[k]));
    forall k | 0 <= k < |ps| ensures '&' !in ps[k] {
      FormEncodeNoSeparators(params[k].0);
      FormEncodeNoSeparators(ToStr(params[k].1));
    }
    SplitJoin(ps, '&');
    forall k | 0 <= k < |params|
      ensures Split(ps[k], '=') == [FormEncode(params[k].0), FormEncode(ToStr(params[k].1))]
    {
      ParamReadsBack(params[k]);
    }
  }

  /** The request path of getQuotes: the endpoint alone when no filter
    * survives, otherwise the endpoint, '?' and the serialised parameters. */
  function QuotesPath(endpoint: string, filters: Record): (r: string)
    ensures QueryParams(filters) == [] ==> r == endpoint
    ensures QueryParams(filters) != [] ==> r == endpoint + "?" + Query(QueryParams(filters))
  {
    var params := QueryParams(filters);
    if params == [] then endpoint else endpoint + "?" + Query(params)
  }
}
