/** The JavaScript values that rows, records and form data hold, with the
  * coercions the modules rely on: truthiness, `||`, String(), Number(),
  * parseFloat, parseInt, `==`, `===` and `<`. */
module JsValues {
  import opened Basics
  import opened Text

  /** A number keeps, besides its value, the text String() renders for it;
    * the shortest-round-trip double formatting itself is not modelled. */
  datatype JsValue =
    | Undefined
    | Null
    | Bool(b: bool)
    | Num(n: real, text: string)
    | Str(s: string)
    | Arr(items: seq<JsValue>)
    | Obj(fields: seq<(string, JsValue)>)

  /** A plain object: its own enumerable properties in insertion order. */
  type Record = seq<(string, JsValue)>

  predicate Truthy(v: JsValue) {
    match v
    case Undefined => false
    case Null => false
    case Bool(b) => b
    case Num(n, _) => n != 0.0
    case Str(s) => s != []
    case _ => true
  }

  predicate IsNullish(v: JsValue) { v.Undefined? || v.Null? }

  /** `a || b`. */
  function Or(a: JsValue, b: JsValue): JsValue {
    if Truthy(a) then a else b
  }

  /** `obj[key]`: the property's value, undefined when absent. */
  function Get(r: Record, key: string): JsValue {
    if r == [] then Undefined
    else if r[0].0 == key then r[0].1
    else Get(r[1..], key)
  }

  /** Object.keys. */
  function Keys<V>(r: seq<(string, V)>): seq<string> {
    seq(|r|, i requires 0 <= i < |r| => r[i].0)
  }

  predicate UniqueKeys<V>(r: seq<(string, V)>) {
    forall i, j :: 0 <= i < j < |r| ==> r[i].0 != r[j].0
  }

  /** `obj[key] = v`: an existing property keeps its position, a new one is appended. */
  function Put<V>(r: seq<(string, V)>, key: string, v: V): seq<(string, V)> {
    if r == [] then [(key, v)]
    else if r[0].0 == key then [(key, v)] + r[1..]
    else [r[0]] + Put(r[1..], key, v)
  }

  /** `map.get(key)` on an insertion-ordered map, None when absent. */
  function Lookup<V>(r: seq<(string, V)>, key: string): (o: Option<V>)
    ensures o.Some? <==> key in Keys(r)
  {
    if r == [] then None
    else if r[0].0 == key then
      assert Keys(r)[0] == key;
      Some(r[0].1)
    else
      var o := Lookup(r[1..], key);
      assert Keys(r) == [r[0].0] + Keys(r[1..]);
      o
  }

  /** `map.set` appends a new key and keeps the order of the existing ones. */
  lemma {:induction false} KeysPut<V>(r: seq<(string, V)>, key: string, v: V)
    ensures Keys(Put(r, key, v)) == if key in Keys(r) then Keys(r) else Keys(r) + [key]
  {
    if r != [] {
      KeysPut(r[1..], key, v);
      assert Keys(r) == [r[0].0] + Keys(r[1..]);
      if r[0].0 != key {
        assert Keys(Put(r, key, v)) == [r[0].0] + Keys(Put(r[1..], key, v));
      } else {
        assert Keys(Put(r, key, v)) == [key] + Keys(r[1..]);
      }
    }
  }

  /** `map.set` with a new key appends it. */
  lemma {:induction false} PutNew<V>(r: seq<(string, V)>, key: string, v: V)
    requires key !in Keys(r)
    ensures Put(r, key, v) == r + [(key, v)]
  {
    if r != [] {
      assert Keys(r) == [r[0].0] + Keys(r[1..]);
      PutNew(r[1..], key, v);
      assert r == [r[0]] + r[1..];
    }
  }

  /** After `map.set(key, v)` the key maps to v and every other key keeps
    * its value. */
  lemma {:induction false} LookupPut<V>(r: seq<(string, V)>, key: string, v: V, other: string)
    ensures Lookup(Put(r, key, v), key) == Some(v)
    ensures other != key ==> Lookup(Put(r, key, v), other) == Lookup(r, other)
  {
    if r != [] {
      LookupPut(r[1..], key, v, other);
    }
  }

  /** `delete obj[key]` / `map.delete(key)`: the entries under other keys,
    * in their order. */
  function Remove<V>(r: seq<(string, V)>, key: string): (o: seq<(string, V)>)
    ensures |o| <= |r|
    ensures forall k :: k in Keys(o) <==> k in Keys(r) && k != key
  {
    if r == [] then []
    else
      var rest := Remove(r[1..], key);
      assert Keys(r) == [r[0].0] + Keys(r[1..]);
      if r[0].0 == key then rest
      else
        assert Keys([r[0]] + rest) == [r[0].0] + Keys(rest);
        [r[0]] + rest
  }

  /** After a delete the key is gone and every other key keeps its value. */
  lemma {:induction false} LookupRemove<V>(r: seq<(string, V)>, key: string, other: string)
    ensures Lookup(Remove(r, key), key) == None
    ensures other != key ==> Lookup(Remove(r, key), other) == Lookup(r, other)
  {
    if r != [] {
      LookupRemove(r[1..], key, other);
    }
  }

  /** `map.set` keeps the keys unique. */
  lemma {:induction false} PutUnique<V>(r: seq<(string, V)>, key: string, v: V)
    requires UniqueKeys(r)
    ensures UniqueKeys(Put(r, key, v))
    decreases |r|
  {
    if r != [] {
      PutUnique(r[1..], key, v);
      KeysPut(r[1..], key, v);
      assert Keys(r) == [r[0].0] + Keys(r[1..]);
      if r[0].0 != key {
        var p := Put(r, key, v);
        forall i, j | 0 <= i < j < |p| ensures p[i].0 != p[j].0 {
          if i == 0 {
            var q := Put(r[1..], key, v);
            assert p[j] == q[j - 1];
            assert Keys(q)[j - 1] == p[j].0;
            assert p[j].0 in Keys(q);
            assert p[j].0 in Keys(r[1..]) || p[j].0 == key;
            if p[j].0 != key {
              var m :| 0 <= m < |Keys(r[1..])| && Keys(r[1..])[m] == p[j].0;
              assert r[m + 1].0 == p[j].0;
            }
          }
        }
      }
    }
  }

  lemma GetPut(r: Record, key: string, v: JsValue, other: string)
    ensures Get(Put(r, key, v), key) == v
    ensures other != key ==> Get(Put(r, key, v), other) == Get(r, other)
    ensures Keys(Put(r, key, v)) == if key in Keys(r) then Keys(r) else Keys(r) + [key]
  {
    GetPutValues(r, key, v, other);
    KeysPut(r, key, v);
  }

  lemma {:induction false} GetPutValues(r: Record, key: string, v: JsValue, other: string)
    ensures Get(Put(r, key, v), key) == v
    ensures other != key ==> Get(Put(r, key, v), other) == Get(r, other)
  {
    if r != [] {
      GetPutValues(r[1..], key, v, other);
    }
  }

  lemma {:induction false} GetAbsent(r: Record, key: string)
    requires key !in Keys(r)
    ensures Get(r, key) == Undefined
  {
    if r != [] {
      assert Keys(r) == [r[0].0] + Keys(r[1..]);
      GetAbsent(r[1..], key);
    }
  }

  lemma {:induction false} GetAt(r: Record, i: nat)
    requires UniqueKeys(r) && i < |r|
    ensures Get(r, r[i].0) == r[i].1
  {
    if i > 0 {
      GetAt(r[1..], i - 1);
    }
  }

  /** Object.assign(target, source): each own property of `source`, in
    * order, written into `target`. */
  function Assign(target: Record, source: Record): Record
    decreases |source|
  {
    if source == [] then target
    else
      var n := |source| - 1;
      Put(Assign(target, source[..n]), source[n].0, source[n].1)
  }

  lemma {:induction false} GetDropLast(r: Record, key: string)
    requires r != [] && r[|r| - 1].0 != key
    ensures Get(r, key) == Get(r[..|r| - 1], key)
    decreases |r|
  {
    if |r| > 1 && r[0].0 != key {
      assert r[1..][..|r[1..]| - 1] == r[..|r| - 1][1..];
      GetDropLast(r[1..], key);
    }
  }

  /** After Object.assign a key of the source has the source's value and
    * every other key keeps the target's value; the target's keys stay in
    * place and new keys follow. */
  lemma {:induction false} AssignGet(target: Record, source: Record, key: string)
    requires UniqueKeys(source)
    ensures Get(Assign(target, source), key) == if key in Keys(source) then Get(source, key) else Get(target, key)
    ensures forall k :: k in Keys(Assign(target, source)) <==> k in Keys(target) || k in Keys(source)
    decreases |source|
  {
    if source != [] {
      var n := |source| - 1;
      var init := source[..n];
      AssignGet(target, init, key);
      GetPut(Assign(target, init), source[n].0, source[n].1, key);
      assert Keys(source) == Keys(init) + [source[n].0];
      if key == source[n].0 {
        GetAt(source, n);
      } else {
        GetDropLast(source, key);
      }
      forall k ensures k in Keys(Assign(target, source)) <==> k in Keys(target) || k in Keys(source) {
      }
    }
  }

  /** Object.entries of an object or array: an array's keys are its indices. */
  function Entries(v: JsValue): Record {
    match v
    case Obj(fields) => fields
    case Arr(items) => seq(|items|, i requires 0 <= i < |items| => (NatToString(i), items[i]))
    case _ => []
  }

  /** `v[key]` on an object or array (an array also has `length`). */
  function Prop(v: JsValue, key: string): JsValue {
    if v.Arr? && key == "length" then Num(|v.items| as real, NatToString(|v.items|))
    else Get(Entries(v), key)
  }

  /** String(v), also what Array.prototype.join and template literals use. */
  function ToStr(v: JsValue): string {
    match v
    case Undefined => "undefined"
    case Null => "null"
    case Bool(b) => if b then "true" else "false"
    case Num(_, text) => text
    case Str(s) => s
    case Arr(items) =>
      Join(seq(|items|, i requires 0 <= i < |items| =>
        if IsNullish(items[i]) then "" else ToStr(items[i])), ',')
    case Obj(_) => "[object Object]"
  }

  function Pow10(k: nat): (r: real)
    ensures r >= 1.0
  {
    if k == 0 then 1.0 else 10.0 * Pow10(k - 1)
  }

  function Scale(m: real, e: int): real {
    if e >= 0 then m * Pow10(e) else m / Pow10(-e)
  }

  /** An exponent part `e`/`E`, optional sign, digits: its value and length. */
  function ExponentPrefix(t: string): Option<(int, nat)> {
    if t == [] || (t[0] != 'e' && t[0] != 'E') then None
    else
      var signed := |t| > 1 && (t[1] == '+' || t[1] == '-');
      var body := if signed then t[2..] else t[1..];
      var ds := LeadingDigits(body);
      if ds == [] then None
      else
        var mag := DigitsValue(ds) as int;
        Some((if signed && t[1] == '-' then -mag else mag, (if signed then 2 else 1) + |ds|))
  }

  /** An unsigned decimal literal at the start of `s` (digits, an optional
    * fraction, an optional exponent): its value and how many characters it
    * takes. */
  function DecimalPrefix(s: string): (r: Option<(real, nat)>)
    ensures r.Some? ==> 1 <= r.value.1 <= |s|
  {
    var ip := LeadingDigits(s);
    var rest := s[|ip|..];
    var hasDot := rest != [] && rest[0] == '.';
    var fp := if hasDot then LeadingDigits(rest[1..]) else [];
    if |ip| + |fp| == 0 then None
    else
      var mant := DigitsValue(ip) as real + DigitsValue(fp) as real / Pow10(|fp|);
      var used := |ip| + (if hasDot then 1 + |fp| else 0);
      match ExponentPrefix(s[used..])
      case None => Some((mant, used))
      case Some((e, k)) => Some((Scale(mant, e), used + k))
  }

  /** parseFloat applied to a string; NaN is None (a leading `Infinity` is not modelled). */
  function ParseFloatPrefix(s: string): Option<real> {
    var t := TrimStart(s);
    var neg := t != [] && t[0] == '-';
    var body := if t != [] && (t[0] == '-' || t[0] == '+') then t[1..] else t;
    match DecimalPrefix(body)
    case None => None
    case Some((v, _)) => Some(if neg then -v else v)
  }

  lemma DecimalPrefixNone(s: string)
    requires s == [] || (!IsDigit(s[0]) && s[0] != '.')
    ensures DecimalPrefix(s) == None
  {}

  /** Text that starts with anything but white space, a sign, a digit or a
    * '.' is not a number for parseFloat. */
  lemma ParseFloatWord(s: string)
    requires s != [] && !IsSpace(s[0]) && s[0] != '-' && s[0] != '+' && !IsDigit(s[0]) && s[0] != '.'
    ensures ParseFloatPrefix(s) == None
  {
    assert TrimStart(s) == s;
    DecimalPrefixNone(s);
  }

  /** Number(s) for a string: surrounding white space ignored, empty is 0,
    * otherwise the whole text must be a signed decimal literal. */
  function StringToNumber(s: string): Option<real> {
    NumberLiteral(Trim(s))
  }

  /** Number(t) for text already trimmed. */
  function NumberLiteral(t: string): Option<real> {
    if t == [] then Some(0.0)
    else
      var neg := t[0] == '-';
      var body := if t[0] == '-' || t[0] == '+' then t[1..] else t;
      match DecimalPrefix(body)
      case None => None
      case Some((v, used)) => if used == |body| then Some(if neg then -v else v) else None
  }

  /** Number(v); NaN is None. */
  function ToNumber(v: JsValue): Option<real> {
    match v
    case Undefined => None
    case Null => Some(0.0)
    case Bool(b) => Some(if b then 1.0 else 0.0)
    case Num(n, _) => Some(n)
    case Str(s) => StringToNumber(s)
    case _ => StringToNumber(ToStr(v))
  }

  function ParseFloat(v: JsValue): Option<real> { ParseFloatPrefix(ToStr(v)) }

  /** A number converts back through its own text. */
  lemma NumberText(n: real, text: string)
    ensures ToStr(Num(n, text)) == text && ParseFloat(Num(n, text)) == ParseFloatPrefix(text)
  {
    var v := Num(n, text);
    assert ToStr(v) == text;
  }

  function ParseInt(v: JsValue): Option<int> { ParseIntPrefix(ToStr(v)) }

  /** `a === b`; two objects are never taken to be the same object. */
  predicate StrictEquals(a: JsValue, b: JsValue) {
    match (a, b)
    case (Undefined, Undefined) => true
    case (Null, Null) => true
    case (Bool(x), Bool(y)) => x == y
    case (Num(x, _), Num(y, _)) => x == y
    case (Str(x), Str(y)) => x == y
    case _ => false
  }

  /** `a == b` for primitives: null and undefined equal each other only;
    * a number and a string or boolean compare as numbers. */
  predicate LooseEquals(a: JsValue, b: JsValue) {
    if IsNullish(a) || IsNullish(b) then IsNullish(a) && IsNullish(b)
    else if a.Str? && b.Str? then a.s == b.s
    else if (a.Arr? || a.Obj?) && (b.Arr? || b.Obj?) then false
    else
      var x := ToNumber(a);
      var y := ToNumber(b);
      x.Some? && y.Some? && x.value == y.value
  }

  lemma StrictImpliesLoose(a: JsValue, b: JsValue)
    requires StrictEquals(a, b)
    ensures LooseEquals(a, b)
  {}

  lemma ToNumberText(s: string)
    ensures ToNumber(Str(s)) == NumberLiteral(Trim(s))
  {
    assert ToNumber(Str(s)) == StringToNumber(s);
  }

  /** Number(v) for the values a comparison meets: null, blank text and the
    * empty array are 0, and surrounding white space does not matter. */
  lemma ToNumberProperties(v: JsValue)
    ensures v.Null? ==> ToNumber(v) == Some(0.0)
    ensures v.Str? ==> ToNumber(v) == ToNumber(Str(Trim(v.s)))
    ensures v.Str? && (forall k :: 0 <= k < |v.s| ==> IsSpace(v.s[k])) ==> ToNumber(v) == Some(0.0)
    ensures v == Arr([]) ==> ToNumber(v) == Some(0.0)
  {
    if v.Str? {
      ToNumberText(v.s);
      ToNumberText(Trim(v.s));
      TrimIdempotent(v.s);
      TrimEmptyIff(v.s);
    } else if v == Arr([]) {
      assert ToStr(v) == [];
      assert Trim([]) == [];
    }
  }

  /** A plain object converts to NaN: its text is "[object Object]". */
  lemma ToNumberObject(v: JsValue)
    requires v.Obj?
    ensures ToNumber(v).None?
  {
    var t := "[object Object]";
    assert ToStr(v) == t;
    TrimNoSpaceEnds(t);
    assert ToNumber(v) == NumberLiteral(t);
    assert t[0] == '[';
    DecimalPrefixNone(t);
  }

  /** `==` is symmetric; null and undefined equal each other and nothing
    * else; a number equals a text exactly when the text converts to it,
    * as a numeric id equals the same id read from a URL. */
  lemma LooseEqualsProperties(a: JsValue, b: JsValue)
    ensures LooseEquals(a, b) == LooseEquals(b, a)
    ensures IsNullish(a) ==> (LooseEquals(a, b) <==> IsNullish(b))
    ensures a.Num? && b.Str? ==> (LooseEquals(a, b) <==> StringToNumber(b.s) == Some(a.n))
    ensures (a.Obj? || a.Arr?) && (b.Obj? || b.Arr?) ==> !LooseEquals(a, b)
  {}

  /** The primitive a value converts to before a relational comparison. */
  function ToPrimitive(v: JsValue): JsValue {
    if v.Arr? || v.Obj? then Str(ToStr(v)) else v
  }

  /** `a < b`: two strings compare by code units, anything else as numbers
    * (NaN compares false). */
  predicate Less(a: JsValue, b: JsValue) {
    var pa := ToPrimitive(a);
    var pb := ToPrimitive(b);
    if pa.Str? && pb.Str? then CompareStrings(pa.s, pb.s) < 0
    else
      var x := ToNumber(pa);
      var y := ToNumber(pb);
      x.Some? && y.Some? && x.value < y.value
  }

  // ---------------------------------------------------------------------
  // Array filtering

  /** `items.filter(keep)`. */
  function Keep(items: seq<JsValue>, keep: JsValue -> bool): (r: seq<JsValue>)
    ensures |r| <= |items|
    ensures forall x :: x in r <==> x in items && keep(x)
  {
    if items == [] then []
    else
      var rest := Keep(items[1..], keep);
      assert forall x :: x in items <==> x == items[0] || x in items[1..];
      if keep(items[0]) then [items[0]] + rest else rest
  }

  /** The test that passes what both tests pass. */
  function Both(p: JsValue -> bool, q: JsValue -> bool): JsValue -> bool { x => p(x) && q(x) }

  /** The test that passes everything when `on` is false, else what `p` passes. */
  function When(on: bool, p: JsValue -> bool): JsValue -> bool { x => !on || p(x) }

  /** Two filters in a row keep exactly what one filter on both tests keeps,
    * in the same order. */
  lemma {:induction false} KeepKeep(items: seq<JsValue>, p: JsValue -> bool, q: JsValue -> bool)
    ensures Keep(Keep(items, p), q) == Keep(items, Both(p, q))
    decreases |items|
  {
    if items != [] {
      KeepKeep(items[1..], p, q);
      var rest := Keep(items[1..], p);
      if p(items[0]) {
        assert Keep(items, p) == [items[0]] + rest;
        assert ([items[0]] + rest)[1..] == rest;
      }
    }
  }

  /** Keeping by a test every item passes changes nothing. */
  lemma {:induction false} KeepAll(items: seq<JsValue>, keep: JsValue -> bool)
    requires forall k :: 0 <= k < |items| ==> keep(items[k])
    ensures Keep(items, keep) == items
    decreases |items|
  {
    if items != [] {
      assert forall k :: 0 <= k < |items[1..]| ==> keep(items[1..][k]) by {
        forall k | 0 <= k < |items[1..]| ensures keep(items[1..][k]) {
          assert items[1..][k] == items[k + 1];
        }
      }
      KeepAll(items[1..], keep);
      assert items == [items[0]] + items[1..];
    }
  }

  /** Two tests that agree on every item keep the same items. */
  lemma {:induction false} KeepSame(items: seq<JsValue>, p: JsValue -> bool, q: JsValue -> bool)
    requires forall x :: p(x) == q(x)
    ensures Keep(items, p) == Keep(items, q)
    decreases |items|
  {
    if items != [] {
      KeepSame(items[1..], p, q);
    }
  }
}
