/** The formula calculator's text rewrites and its two entry points:
  * braced-variable substitution and detection, the bare-word passes for
  * numeric variables and named constants, the syntax check, evaluate and
  * validate. */
module FormulaVariables {
  import opened Basics
  import opened Text
  import opened JsValues
  import opened FormulaCalculator
  import opened FormulaPostfix
  import opened FormulaEvaluation

  // ---------------------------------------------------------------------
  // Braced variables: /\{([a-zA-Z_][a-zA-Z0-9_\.]*)\}/g
  // ---------------------------------------------------------------------

  predicate IsNameStart(c: char) { IsLetter(c) || c == '_' }

  predicate IsNameChar(c: char) { IsLetter(c) || IsDigit(c) || c == '_' || c == '.' }

  /** The end of the run of name characters that starts at `i`. */
  function NameRunEnd(s: string, i: nat): (j: nat)
    requires i <= |s|
    ensures i <= j <= |s|
    ensures forall k :: i <= k < j ==> IsNameChar(s[k])
    ensures j == |s| || !IsNameChar(s[j])
    decreases |s| - i
  {
    if i < |s| && IsNameChar(s[i]) then NameRunEnd(s, i + 1) else i
  }

  /** Where a braced variable that starts at `p` ends (just past its `}`).
    * The name part is greedy and cannot contain `}`, so the pattern matches
    * at `p` exactly when the maximal name run is closed by a `}`. */
  function BracedAt(s: string, p: nat): (r: Option<nat>)
    requires p <= |s|
    ensures r.Some? ==> p + 3 <= r.value <= |s| && s[p] == '{' && s[r.value - 1] == '}'
    ensures r.Some? ==> IsNameStart(s[p + 1]) && forall k :: p + 1 <= k < r.value - 1 ==> IsNameChar(s[k])
  {
    if p + 1 < |s| && s[p] == '{' && IsNameStart(s[p + 1]) then
      var j := NameRunEnd(s, p + 1);
      if j < |s| && s[j] == '}' then Some(j + 1) else None
    else None
  }

  /** The names of all braced variables, left to right, as the global
    * pattern finds them. */
  function BracedNamesFrom(s: string, p: nat): seq<string>
    requires p <= |s|
    decreases |s| - p
  {
    if p == |s| then []
    else
      match BracedAt(s, p)
      case Some(end) => [s[p + 1..end - 1]] + BracedNamesFrom(s, end)
      case None => BracedNamesFrom(s, p + 1)
  }

  function BracedNames(s: string): seq<string> {
    BracedNamesFrom(s, 0)
  }

  /** The names that are not own properties of the variables object, in order. */
  function UndefinedIn(names: seq<string>, vars: Record): seq<string> {
    if names == [] then []
    else (if names[0] !in Keys(vars) then [names[0]] else []) + UndefinedIn(names[1..], vars)
  }

  lemma {:induction false} UndefinedInMembers(names: seq<string>, vars: Record)
    ensures forall x :: x in UndefinedIn(names, vars) <==> x in names && x !in Keys(vars)
  {
    if names != [] {
      UndefinedInMembers(names[1..], vars);
      assert names == [names[0]] + names[1..];
    }
  }

  /** [...new Set(list)]: the first occurrence of each value, in order. */
  function Dedupe(s: seq<string>): seq<string> {
    if s == [] then []
    else
      var d := Dedupe(s[..|s| - 1]);
      if s[|s| - 1] in d then d else d + [s[|s| - 1]]
  }

  lemma {:induction false} DedupeProperties(s: seq<string>)
    ensures forall x :: x in Dedupe(s) <==> x in s
    ensures forall i, j :: 0 <= i < j < |Dedupe(s)| ==> Dedupe(s)[i] != Dedupe(s)[j]
  {
    if s != [] {
      var init := s[..|s| - 1];
      DedupeProperties(init);
      assert s == init + [s[|s| - 1]];
    }
  }

  /** One position of the global match: a match there contributes its name
    * when undefined and the search resumes after it; otherwise it resumes at
    * the next position. */
  lemma UndefinedFromStep(e: string, p: nat, vars: Record)
    requires p < |e|
    ensures BracedAt(e, p).Some? ==>
      var end := BracedAt(e, p).value;
      var name := e[p + 1..end - 1];
      UndefinedIn(BracedNamesFrom(e, p), vars) ==
        (if name !in Keys(vars) then [name] else []) + UndefinedIn(BracedNamesFrom(e, end), vars)
    ensures BracedAt(e, p).None? ==>
      UndefinedIn(BracedNamesFrom(e, p), vars) == UndefinedIn(BracedNamesFrom(e, p + 1), vars)
  {
    if BracedAt(e, p).Some? {
      var end := BracedAt(e, p).value;
      var name := e[p + 1..end - 1];
      var names := BracedNamesFrom(e, p);
      assert names == [name] + BracedNamesFrom(e, end);
      assert names[0] == name && names[1..] == BracedNamesFrom(e, end);
    }
  }

  /** The global match loop: the undefined names in order, repeats kept. */
  method CollectUndefined(e: string, vars: Record) returns (found: seq<string>)
    ensures found == UndefinedIn(BracedNames(e), vars)
  {
    found := [];
    ghost var all := UndefinedIn(BracedNames(e), vars);
    var p := 0;
    while p < |e|
      invariant 0 <= p <= |e|
      invariant found + UndefinedIn(BracedNamesFrom(e, p), vars) == all
      decreases |e| - p
    {
      var m := BracedAt(e, p);
      UndefinedFromStep(e, p, vars);
      if m.Some? {
        var name := e[p + 1..m.value - 1];
        var added := if name !in Keys(vars) then [name] else [];
        AppendAssoc(found, added, UndefinedIn(BracedNamesFrom(e, m.value), vars));
        found := found + added;
        p := m.value;
      } else {
        p := p + 1;
      }
    }
    assert BracedNamesFrom(e, p) == [];
  }

  lemma AppendAssoc<T>(a: seq<T>, b: seq<T>, c: seq<T>)
    ensures a + (b + c) == (a + b) + c
  {}

  /** `[...new Set(found)]`. */
  method DedupeInOrder(found: seq<string>) returns (r: seq<string>)
    ensures r == Dedupe(found)
  {
    r := [];
    for i := 0 to |found|
      invariant r == Dedupe(found[..i])
    {
      assert found[..i + 1][..i] == found[..i];
      if found[i] !in r {
        r := r + [found[i]];
      }
    }
    assert found[..|found|] == found;
  }

  /** findUndefinedVariables(expression, variables). */
  method FindUndefinedVariables(e: string, vars: Record) returns (r: seq<string>)
    ensures r == Dedupe(UndefinedIn(BracedNames(e), vars))
    ensures forall x :: x in r <==> x in BracedNames(e) && x !in Keys(vars)
    ensures forall i, j :: 0 <= i < j < |r| ==> r[i] != r[j]
  {
    var found := CollectUndefined(e, vars);
    r := DedupeInOrder(found);
    DedupeProperties(found);
    UndefinedInMembers(BracedNames(e), vars);
  }

  /** What a defined variable is replaced by: a number's own text, any other
    * value in double quotes. */
  function Render(v: JsValue): string {
    if v.Num? then v.text else "\"" + ToStr(v) + "\""
  }

  /** The braced replacement from position `p`; the first undefined name
    * throws. */
  function ReplaceBracedFrom(s: string, p: nat, vars: Record): Result<string, CalcError>
    requires p <= |s|
    decreases |s| - p
  {
    if p == |s| then Ok([])
    else
      match BracedAt(s, p)
      case Some(end) =>
        var name := s[p + 1..end - 1];
        if name !in Keys(vars) then Err(UndefinedVariable(name))
        else
          (match ReplaceBracedFrom(s, end, vars)
           case Err(x) => Err(x)
           case Ok(rest) => Ok(Render(Get(vars, name)) + rest))
      case None =>
        match ReplaceBracedFrom(s, p + 1, vars)
        case Err(x) => Err(x)
        case Ok(rest) => Ok([s[p]] + rest)
  }

  function ReplaceBraced(s: string, vars: Record): Result<string, CalcError> {
    ReplaceBracedFrom(s, 0, vars)
  }

  /** The replacement throws exactly when some braced name is undefined, and
    * then names the first such one. */
  lemma {:induction false} ReplaceBracedFromError(s: string, p: nat, vars: Record)
    requires p <= |s|
    ensures ReplaceBracedFrom(s, p, vars).Err? <==> UndefinedIn(BracedNamesFrom(s, p), vars) != []
    ensures ReplaceBracedFrom(s, p, vars).Err? ==>
      ReplaceBracedFrom(s, p, vars).error == UndefinedVariable(UndefinedIn(BracedNamesFrom(s, p), vars)[0])
    decreases |s| - p
  {
    if p < |s| {
      match BracedAt(s, p) {
        case Some(end) =>
          var name := s[p + 1..end - 1];
          var names := [name] + BracedNamesFrom(s, end);
          assert names[1..] == BracedNamesFrom(s, end);
          ReplaceBracedFromError(s, end, vars);
        case None =>
          ReplaceBracedFromError(s, p + 1, vars);
      }
    }
  }

  /** replaceVariables throws for exactly the names findUndefinedVariables
    * reports, and for the first of them. */
  lemma ReplaceBracedErrorIff(s: string, vars: Record)
    ensures ReplaceBraced(s, vars).Err? <==> Dedupe(UndefinedIn(BracedNames(s), vars)) != []
    ensures ReplaceBraced(s, vars).Err? ==>
      ReplaceBraced(s, vars).error == UndefinedVariable(Dedupe(UndefinedIn(BracedNames(s), vars))[0])
  {
    var u := UndefinedIn(BracedNames(s), vars);
    ReplaceBracedFromError(s, 0, vars);
    DedupeProperties(u);
    UndefinedInMembers(BracedNames(s), vars);
    if u != [] {
      DedupeFirst(u);
    }
  }

  lemma {:induction false} DedupeFirst(s: seq<string>)
    requires s != []
    ensures Dedupe(s) != [] && Dedupe(s)[0] == s[0]
  {
    if |s| > 1 {
      var init := s[..|s| - 1];
      DedupeFirst(init);
    }
  }

  /** Text without a `{` has no braced variable and is left as it is. */
  lemma {:induction false} ReplaceBracedNoBrace(s: string, p: nat, vars: Record)
    requires p <= |s| && forall k :: p <= k < |s| ==> s[k] != '{'
    ensures ReplaceBracedFrom(s, p, vars) == Ok(s[p..])
    decreases |s| - p
  {
    if p < |s| {
      ReplaceBracedNoBrace(s, p + 1, vars);
      assert s[p..] == [s[p]] + s[p + 1..];
    }
  }

  // ---------------------------------------------------------------------
  // Bare words: new RegExp(`\\b${key}\\b`, 'g')
  // ---------------------------------------------------------------------

  /** `\b` at position `i`: a word character on exactly one side. */
  predicate BoundaryAt(s: string, i: nat)
    requires i <= |s|
  {
    (i > 0 && IsWordChar(s[i - 1])) != (i < |s| && IsWordChar(s[i]))
  }

  predicate WordMatchAt(s: string, key: string, i: nat)
    requires i <= |s|
  {
    i + |key| <= |s| && s[i..i + |key|] == key && BoundaryAt(s, i) && BoundaryAt(s, i + |key|)
  }

  /** The global replacement from position `i`: each match, left to right
    * and not overlapping, becomes `rep`; after an empty match the scan
    * moves on by one character. */
  function ReplaceWordFrom(s: string, key: string, rep: string, i: nat): string
    requires i <= |s|
    decreases |s| - i
  {
    if WordMatchAt(s, key, i) then
      if key == [] then rep + (if i < |s| then [s[i]] + ReplaceWordFrom(s, key, rep, i + 1) else [])
      else rep + ReplaceWordFrom(s, key, rep, i + |key|)
    else if i < |s| then [s[i]] + ReplaceWordFrom(s, key, rep, i + 1)
    else []
  }

  function ReplaceWord(s: string, key: string, rep: string): string {
    ReplaceWordFrom(s, key, rep, 0)
  }

  /** With no whole-word occurrence of `key` the text is unchanged: a word
    * that merely contains the key is never rewritten. */
  lemma {:induction false} ReplaceWordNoMatch(s: string, key: string, rep: string, i: nat)
    requires i <= |s| && forall j :: i <= j <= |s| ==> !WordMatchAt(s, key, j)
    ensures ReplaceWordFrom(s, key, rep, i) == s[i..]
    decreases |s| - i
  {
    if i < |s| {
      ReplaceWordNoMatch(s, key, rep, i + 1);
      assert s[i..] == [s[i]] + s[i + 1..];
    }
  }

  /** A word-bounded occurrence at `i` is replaced. */
  lemma ReplaceWordAt(s: string, key: string, rep: string, i: nat)
    requires i <= |s| && key != [] && WordMatchAt(s, key, i)
    ensures ReplaceWordFrom(s, key, rep, i) == rep + ReplaceWordFrom(s, key, rep, i + |key|)
  {}

  /** The legacy pass: each numeric variable, in the object's order, replaces
    * its bare name. */
  function LegacyPassFrom(s: string, vars: Record, i: nat): string
    requires i <= |vars|
    decreases |vars| - i
  {
    if i == |vars| then s
    else
      var next := if vars[i].1.Num? then ReplaceWord(s, vars[i].0, vars[i].1.text) else s;
      LegacyPassFrom(next, vars, i + 1)
  }

  /** replaceVariables(expression, variables). */
  method ReplaceVariables(e: string, vars: Record) returns (r: Result<string, CalcError>)
    ensures ReplaceBraced(e, vars).Err? ==> r == Err(ReplaceBraced(e, vars).error)
    ensures ReplaceBraced(e, vars).Ok? ==> r == Ok(LegacyPassFrom(ReplaceBraced(e, vars).value, vars, 0))
  {
    var braced := ReplaceBraced(e, vars);
    if braced.Err? {
      return Err(braced.error);
    }
    var result := braced.value;
    for i := 0 to |vars|
      invariant LegacyPassFrom(result, vars, i) == LegacyPassFrom(braced.value, vars, 0)
    {
      if vars[i].1.Num? {
        result := ReplaceWord(result, vars[i].0, vars[i].1.text);
      }
    }
    r := Ok(result);
  }

  /** The named constants, in declaration order, with the text String()
    * gives for each value. */
  function Constants(): seq<(string, string)> {
    [("PI", "3.141592653589793"), ("E", "2.718281828459045"), ("TIMBER_WASTAGE", "1.1"),
     ("STANDARD_SPACING", "600"), ("SAFETY_FACTOR", "1.2")]
  }

  function ConstantsFrom(s: string, i: nat): string
    requires i <= |Constants()|
    decreases |Constants()| - i
  {
    if i == |Constants()| then s
    else ConstantsFrom(ReplaceWord(s, Constants()[i].0, Constants()[i].1), i + 1)
  }

  /** replaceConstants(expression). */
  method ReplaceConstants(e: string) returns (r: string)
    ensures r == ConstantsFrom(e, 0)
  {
    r := e;
    var table := Constants();
    for i := 0 to |table|
      invariant ConstantsFrom(r, i) == ConstantsFrom(e, 0)
    {
      r := ReplaceWord(r, table[i].0, table[i].1);
    }
  }

  /** The rewrites evaluate and validate share: braced variables, then bare
    * numeric variables, then constants. */
  function Rewrite(e: string, vars: Record): Result<string, CalcError> {
    match ReplaceBraced(e, vars)
    case Err(x) => Err(x)
    case Ok(s) => Ok(ConstantsFrom(LegacyPassFrom(s, vars, 0), 0))
  }

  // ---------------------------------------------------------------------
  // evaluate
  // ---------------------------------------------------------------------

  predicate NotSpace(c: char) { !IsSpace(c) }

  /** evaluate(expression, variables). The function-call pass is the
    * parameter `functions`; `pow` is Math.pow for fractional exponents. */
  function EvaluateSpec(expression: JsValue, vars: Record,
                        functions: string -> Result<string, CalcError>,
                        pow: (real, real) -> Num): Result<real, CalcError>
  {
    if !expression.Str? || expression.s == [] then Err(InvalidExpression)
    else
      match Rewrite(expression.s, vars)
      case Err(x) => Err(x)
      case Ok(s) =>
        match functions(FilterChars(s, NotSpace))
        case Err(x) => Err(x)
        case Ok(f) =>
          match RunPostfix(Postfix(Tokens(f)), pow)
          case Err(x) => Err(x)
          case Ok(n) => if n.NonFinite? then Err(InvalidResult) else Ok(n.v)
  }

  method Evaluate(expression: JsValue, vars: Record,
                  functions: string -> Result<string, CalcError>,
                  pow: (real, real) -> Num) returns (r: Result<real, CalcError>)
    ensures r == EvaluateSpec(expression, vars, functions, pow)
  {
    if !expression.Str? || expression.s == [] {
      return Err(InvalidExpression);
    }
    var replaced := ReplaceVariables(expression.s, vars);
    if replaced.Err? {
      return Err(replaced.error);
    }
    var withConstants := ReplaceConstants(replaced.value);
    var stripped := FilterChars(withConstants, NotSpace);
    var called := functions(stripped);
    if called.Err? {
      return Err(called.error);
    }
    var postfix := ToPostfix(called.value);
    var result := EvaluatePostfix(postfix, pow);
    if result.Err? {
      return Err(result.error);
    }
    if result.value.NonFinite? {
      return Err(InvalidResult);
    }
    r := Ok(result.value.v);
  }

  /** evaluate's error cases: a missing, empty or non-string expression, an
    * undefined braced variable (the first one), and a non-finite result
    * never come back as a value. */
  lemma EvaluateErrors(expression: JsValue, vars: Record,
                       functions: string -> Result<string, CalcError>, pow: (real, real) -> Num)
    ensures !expression.Str? || expression.s == [] ==>
      EvaluateSpec(expression, vars, functions, pow) == Err(InvalidExpression)
    ensures expression.Str? && expression.s != [] && UndefinedIn(BracedNames(expression.s), vars) != [] ==>
      EvaluateSpec(expression, vars, functions, pow) ==
        Err(UndefinedVariable(UndefinedIn(BracedNames(expression.s), vars)[0]))
  {
    if expression.Str? {
      ReplaceBracedFromError(expression.s, 0, vars);
    }
  }

  // ---------------------------------------------------------------------
  // validate
  // ---------------------------------------------------------------------

  predicate IsCallNameStart(c: char) { IsUpper(c) || c == '_' }

  predicate IsCallNameChar(c: char) { IsUpper(c) || IsDigit(c) || c == '_' }

  function CallNameEnd(s: string, i: nat): (j: nat)
    requires i <= |s|
    ensures i <= j <= |s|
    ensures forall k :: i <= k < j ==> IsCallNameChar(s[k])
    ensures j == |s| || !IsCallNameChar(s[j])
    decreases |s| - i
  {
    if i < |s| && IsCallNameChar(s[i]) then CallNameEnd(s, i + 1) else i
  }

  /** The first `)` at or after `i`, or |s|. */
  function CloseFrom(s: string, i: nat): (j: nat)
    requires i <= |s|
    ensures i <= j <= |s| && (j < |s| ==> s[j] == ')')
    ensures forall k :: i <= k < j ==> s[k] != ')'
    decreases |s| - i
  {
    if i == |s| || s[i] == ')' then i else CloseFrom(s, i + 1)
  }

  /** Where a call `NAME(...)` (/[A-Z_][A-Z0-9_]*\([^)]*\)/) that starts at
    * `p` ends. */
  function CallAt(s: string, p: nat): (r: Option<nat>)
    requires p < |s|
    ensures r.Some? ==> p < r.value <= |s|
  {
    if IsCallNameStart(s[p]) then
      var j := CallNameEnd(s, p + 1);
      if j < |s| && s[j] == '(' then
        var k := CloseFrom(s, j + 1);
        if k < |s| then Some(k + 1) else None
      else None
    else None
  }

  /** Every call replaced by `1`. */
  function MaskCallsFrom(s: string, p: nat): string
    requires p <= |s|
    decreases |s| - p
  {
    if p == |s| then []
    else
      match CallAt(s, p)
      case Some(end) => "1" + MaskCallsFrom(s, end)
      case None => [s[p]] + MaskCallsFrom(s, p + 1)
  }

  predicate IsSyntaxChar(c: char) {
    IsDigit(c) || c == '+' || c == '-' || c == '*' || c == '/' || c == '%' ||
    c == '(' || c == ')' || c == '.' || c == ' '
  }

  /** isValidSyntax(expression). */
  predicate IsValidSyntax(s: string) {
    var m := MaskCallsFrom(s, 0);
    forall k :: 0 <= k < |m| ==> IsSyntaxChar(m[k])
  }

  /** Text in which no call can start is checked character by character. */
  lemma {:induction false} MaskWithoutCalls(s: string, p: nat)
    requires p <= |s| && forall k :: p <= k < |s| ==> !IsCallNameStart(s[k])
    ensures MaskCallsFrom(s, p) == s[p..]
    decreases |s| - p
  {
    if p < |s| {
      MaskWithoutCalls(s, p + 1);
      assert s[p..] == [s[p]] + s[p + 1..];
    }
  }

  /** The syntax check has no `^` among its characters, so it rejects a
    * power written with `^` although the tokenizer and the evaluator accept
    * that operator. */
  lemma CaretRejected(s: string)
    requires forall k :: 0 <= k < |s| ==> !IsCallNameStart(s[k])
    requires '^' in s
    ensures !IsValidSyntax(s)
    ensures Classify(OpText(Caret)) == KOp(Caret)
  {
    CaretNotSyntax(s);
    ClassifyOperator(Caret);
  }

  lemma CaretNotSyntax(s: string)
    requires forall k :: 0 <= k < |s| ==> !IsCallNameStart(s[k])
    requires '^' in s
    ensures !IsValidSyntax(s)
  {
    MaskWithoutCalls(s, 0);
    var k :| 0 <= k < |s| && s[k] == '^';
    assert !IsSyntaxChar('^');
    assert MaskCallsFrom(s, 0)[k] == '^';
  }

  datatype ValidationError =
    | ExpressionRequired
    | UnbalancedParentheses
    | UndefinedVariables(names: seq<string>)
    | Thrown(error: CalcError)
    | InvalidSyntax

  datatype Validation = Valid | Invalid(error: ValidationError)

  /** validate(expression, variables): the checks in the order the source
    * makes them. */
  ghost function ValidateSpec(expression: JsValue, vars: Record): Validation {
    if !expression.Str? || expression.s == [] then Invalid(ExpressionRequired)
    else if !ParensBalanced(expression.s) then Invalid(UnbalancedParentheses)
    else if Dedupe(UndefinedIn(BracedNames(expression.s), vars)) != [] then
      Invalid(UndefinedVariables(Dedupe(UndefinedIn(BracedNames(expression.s), vars))))
    else
      match Rewrite(expression.s, vars)
      case Err(x) => Invalid(Thrown(x))
      case Ok(s) => if IsValidSyntax(s) then Valid else Invalid(InvalidSyntax)
  }

  method Validate(expression: JsValue, vars: Record) returns (v: Validation)
    ensures v == ValidateSpec(expression, vars)
  {
    if !expression.Str? || expression.s == [] {
      return Invalid(ExpressionRequired);
    }
    var balanced := HasBalancedParentheses(expression.s);
    if !balanced {
      return Invalid(UnbalancedParentheses);
    }
    var undefinedVars := FindUndefinedVariables(expression.s, vars);
    if undefinedVars != [] {
      return Invalid(UndefinedVariables(undefinedVars));
    }
    var replaced := ReplaceVariables(expression.s, vars);
    if replaced.Err? {
      return Invalid(Thrown(replaced.error));
    }
    var withConstants := ReplaceConstants(replaced.value);
    if IsValidSyntax(withConstants) {
      v := Valid;
    } else {
      v := Invalid(InvalidSyntax);
    }
  }

  /** Once the undefined-variable check has passed, the substitution cannot
    * throw, so validate never reports a thrown error. */
  lemma ValidateNeverThrows(expression: JsValue, vars: Record)
    ensures !ValidateSpec(expression, vars).Invalid? || !ValidateSpec(expression, vars).error.Thrown?
  {
    if expression.Str? {
      ReplaceBracedErrorIff(expression.s, vars);
    }
  }

  /** For a formula validate accepts, the substitution evaluate starts
    * with succeeds, and its result passes the syntax check. */
  lemma ValidImpliesRewrites(expression: JsValue, vars: Record)
    requires ValidateSpec(expression, vars) == Valid
    ensures expression.Str? && Rewrite(expression.s, vars).Ok?
    ensures IsValidSyntax(Rewrite(expression.s, vars).value)
  {
    ReplaceBracedErrorIff(expression.s, vars);
  }
}
