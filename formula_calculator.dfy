/** The stock-quantity formula calculator: variable and constant
  * substitution, tokenizing, the shunting-yard conversion to postfix, the
  * postfix stack machine, and the validation that runs before a formula is
  * saved. */
module FormulaCalculator {
  import opened Basics
  import opened Text
  import opened JsValues

  // ---------------------------------------------------------------------
  // Operators
  // ---------------------------------------------------------------------

  datatype Op = Plus | Minus | Times | Divide | Mod | Caret | StarStar

  /** The operator table: precedence 1 for + -, 2 for * / %, 3 for ^ **. */
  function Precedence(op: Op): nat {
    match op
    case Plus | Minus => 1
    case Times | Divide | Mod => 2
    case Caret | StarStar => 3
  }

  /** Every operator is left-associative except ^ and **. */
  predicate LeftAssociative(op: Op) {
    !(op.Caret? || op.StarStar?)
  }

  function OpText(op: Op): string {
    match op
    case Plus => "+"
    case Minus => "-"
    case Times => "*"
    case Divide => "/"
    case Mod => "%"
    case Caret => "^"
    case StarStar => "**"
  }

  /** isOperator: the token is a key of the operator table. */
  function ParseOp(t: string): (r: Option<Op>)
    ensures r.Some? ==> OpText(r.value) == t
  {
    if t == "+" then Some(Plus)
    else if t == "-" then Some(Minus)
    else if t == "*" then Some(Times)
    else if t == "/" then Some(Divide)
    else if t == "%" then Some(Mod)
    else if t == "^" then Some(Caret)
    else if t == "**" then Some(StarStar)
    else None
  }

  lemma ParseOpText(op: Op)
    ensures ParseOp(OpText(op)) == Some(op)
  {}

  /** hasHigherPrecedence(op1, op2): op1 binds tighter, or as tightly and op1
    * is left-associative. */
  predicate HasHigherPrecedence(op1: Op, op2: Op) {
    if Precedence(op1) > Precedence(op2) then true
    else if Precedence(op1) < Precedence(op2) then false
    else LeftAssociative(op1)
  }

  /** The test the conversion uses is the textbook shunting-yard rule: pop the
    * stacked operator when it binds tighter, or as tightly and the incoming
    * operator is left-associative (operators of one level share their
    * associativity). */
  lemma ShuntingRule(top: Op, incoming: Op)
    ensures HasHigherPrecedence(top, incoming) <==>
      Precedence(top) > Precedence(incoming) ||
      (Precedence(top) == Precedence(incoming) && LeftAssociative(incoming))
  {}

  // ---------------------------------------------------------------------
  // Numbers and operator application
  // ---------------------------------------------------------------------

  /** A JavaScript number: a finite value, or NaN / an infinity. */
  datatype Num = Finite(v: real) | NonFinite

  datatype CalcError =
    | InvalidExpression
    | UndefinedVariable(name: string)
    | InsufficientOperands
    | Malformed
    | DivisionByZero
    | InvalidResult

  /** Math.trunc. */
  function Trunc(x: real): int {
    if x >= 0.0 then x.Floor else -((-x).Floor)
  }

  /** JavaScript's `%`: the remainder of a division truncated toward zero. */
  function JsRemainder(a: real, b: real): real
    requires b != 0.0
  {
    a - b * (Trunc(a / b) as real)
  }

  lemma TruncBounds(x: real)
    ensures x >= 0.0 ==> 0.0 <= x - Trunc(x) as real < 1.0
    ensures x < 0.0 ==> -1.0 < x - Trunc(x) as real <= 0.0
  {}

  /** The bounds and the sign of `b * f` for a fraction `f` strictly
    * between -1 and 1, stated about a name for the product. */
  lemma ScaledFractionBounds(b: real, f: real, r: real)
    requires r == b * f && -1.0 < f < 1.0
    ensures b > 0.0 ==> 0.0 - b < r < b
    ensures b < 0.0 ==> b < r < 0.0 - b
    ensures (f >= 0.0 && b > 0.0) || (f <= 0.0 && b < 0.0) ==> r >= 0.0
    ensures (f <= 0.0 && b > 0.0) || (f >= 0.0 && b < 0.0) ==> r <= 0.0
  {
    assert r - b == b * (f - 1.0);
    assert r + b == b * (f + 1.0);
  }

  lemma QuotientSign(a: real, b: real)
    requires b != 0.0
    ensures b > 0.0 ==> (a / b >= 0.0 <==> a >= 0.0)
    ensures b < 0.0 ==> (a / b >= 0.0 <==> a <= 0.0)
  {}

  lemma RemainderIsScaledFraction(a: real, b: real)
    requires b != 0.0
    ensures JsRemainder(a, b) == b * (a / b - Trunc(a / b) as real)
  {
    var q := a / b;
    var t := Trunc(q) as real;
    assert a == b * q;
    assert b * (q - t) == b * q - b * t;
  }

  /** The remainder is smaller than the divisor in magnitude and is never of
    * the opposite sign to the dividend. */
  lemma RemainderBounds(a: real, b: real)
    requires b != 0.0
    ensures JsRemainder(a, b) < 0.0 ==> a < 0.0
    ensures JsRemainder(a, b) > 0.0 ==> a > 0.0
    ensures b > 0.0 ==> 0.0 - b < JsRemainder(a, b) < b
    ensures b < 0.0 ==> b < JsRemainder(a, b) < 0.0 - b
  {
    var q := a / b;
    var f := q - Trunc(q) as real;
    var r := JsRemainder(a, b);
    TruncBounds(q);
    RemainderIsScaledFraction(a, b);
    QuotientSign(a, b);
    ScaledFractionBounds(b, f, r);
    if a == 0.0 {
      assert q == 0.0 && f == 0.0;
    } else if q >= 0.0 {
      assert f >= 0.0;
    } else {
      assert f <= 0.0;
    }
  }

  function RealPow(a: real, n: nat): (r: real)
    ensures a != 0.0 ==> r != 0.0
  {
    if n == 0 then 1.0 else a * RealPow(a, n - 1)
  }

  /** Math.pow: integer exponents exactly (a negative power of zero is
    * infinite); a fractional exponent is delegated to `pow`. */
  function Power(a: real, b: real, pow: (real, real) -> Num): Num {
    if b == b.Floor as real then
      if b >= 0.0 then Finite(RealPow(a, b.Floor as nat))
      else if a == 0.0 then NonFinite
      else Finite(1.0 / RealPow(a, (-b).Floor as nat))
    else pow(a, b)
  }

  /** applyOperator(a, b, op): only `/` by zero throws; `%` by zero is NaN. */
  function ApplyOperator(a: Num, b: Num, op: Op, pow: (real, real) -> Num): Result<Num, CalcError> {
    if op == Divide && b == Finite(0.0) then Err(DivisionByZero)
    else if a.NonFinite? || b.NonFinite? then Ok(NonFinite)
    else
      var x, y := a.v, b.v;
      match op
      case Plus => Ok(Finite(x + y))
      case Minus => Ok(Finite(x - y))
      case Times => Ok(Finite(x * y))
      case Divide => Ok(Finite(x / y))
      case Mod => Ok(if y == 0.0 then NonFinite else Finite(JsRemainder(x, y)))
      case Caret => Ok(Power(x, y, pow))
      case StarStar => Ok(Power(x, y, pow))
  }

  /** Only division by zero makes an operator fail, and ^ and ** agree. */
  lemma ApplyOperatorErrors(a: Num, b: Num, op: Op, pow: (real, real) -> Num)
    ensures ApplyOperator(a, b, op, pow).Err? <==> op == Divide && b == Finite(0.0)
    ensures ApplyOperator(a, b, Caret, pow) == ApplyOperator(a, b, StarStar, pow)
  {}

  // ---------------------------------------------------------------------
  // Tokenizer
  // ---------------------------------------------------------------------

  predicate IsNumberChar(c: char) { IsDigit(c) || c == '.' }

  predicate IsOperatorChar(c: char) {
    c == '+' || c == '-' || c == '*' || c == '/' || c == '%' || c == '^'
  }

  /** The characters the tokenizer keeps; every other character is dropped. */
  predicate IsTokenChar(c: char) {
    IsNumberChar(c) || IsOperatorChar(c) || c == '(' || c == ')'
  }

  predicate IsRun(t: string) {
    t != [] && forall k :: 0 <= k < |t| ==> IsNumberChar(t[k])
  }

  /** A token is a run of digits and dots, one operator or parenthesis
    * character, or `**`. */
  predicate WellFormedToken(t: string) {
    IsRun(t) || t == "**" || (|t| == 1 && (IsOperatorChar(t[0]) || t[0] == '(' || t[0] == ')'))
  }

  function Flatten(ts: seq<string>): string {
    if ts == [] then [] else Flatten(ts[..|ts| - 1]) + ts[|ts| - 1]
  }

  lemma FlattenSnoc(ts: seq<string>, t: string)
    ensures Flatten(ts + [t]) == Flatten(ts) + t
  {
    assert (ts + [t])[..|ts|] == ts;
  }

  /** Pushes the pending number run, if any. */
  function FlushRun(tokens: seq<string>, current: string): seq<string> {
    if current != [] then tokens + [current] else tokens
  }

  /** The tokenizer's scan from position `i`, with the tokens found so far and
    * the pending run of number characters. A dropped character does not end
    * the pending run. */
  function TokenizeFrom(e: string, i: nat, tokens: seq<string>, current: string): seq<string>
    requires i <= |e|
    decreases |e| - i
  {
    if i == |e| then FlushRun(tokens, current)
    else
      var c := e[i];
      if IsNumberChar(c) then TokenizeFrom(e, i + 1, tokens, current + [c])
      else if IsOperatorChar(c) then
        if c == '*' && i + 1 < |e| && e[i + 1] == '*' then
          TokenizeFrom(e, i + 2, FlushRun(tokens, current) + ["**"], [])
        else TokenizeFrom(e, i + 1, FlushRun(tokens, current) + [[c]], [])
      else if c == '(' || c == ')' then
        TokenizeFrom(e, i + 1, FlushRun(tokens, current) + [[c]], [])
      else TokenizeFrom(e, i + 1, tokens, current)
  }

  function Tokens(e: string): seq<string> {
    TokenizeFrom(e, 0, [], [])
  }

  /** tokenize(expression). */
  method Tokenize(e: string) returns (tokens: seq<string>)
    ensures tokens == Tokens(e)
    ensures Flatten(tokens) == FilterChars(e, IsTokenChar)
    ensures forall k :: 0 <= k < |tokens| ==> WellFormedToken(tokens[k])
    ensures forall k :: 0 < k < |tokens| ==> !(IsRun(tokens[k - 1]) && IsRun(tokens[k]))
  {
    tokens := [];
    var current: string := [];
    var i := 0;
    while i < |e|
      invariant 0 <= i <= |e|
      invariant TokenizeFrom(e, i, tokens, current) == Tokens(e)
    {
      var c := e[i];
      if IsNumberChar(c) {
        current := current + [c];
      } else if IsOperatorChar(c) {
        if current != [] {
          tokens := tokens + [current];
          current := [];
        }
        if c == '*' && i + 1 < |e| && e[i + 1] == '*' {
          tokens := tokens + ["**"];
          i := i + 1;
        } else {
          tokens := tokens + [[c]];
        }
      } else if c == '(' || c == ')' {
        if current != [] {
          tokens := tokens + [current];
          current := [];
        }
        tokens := tokens + [[c]];
      }
      i := i + 1;
    }
    if current != [] {
      tokens := tokens + [current];
    }
    TokensProperties(e);
  }

  /** Every token is well formed and no two number runs are adjacent. */
  ghost predicate TokensOk(ts: seq<string>) {
    (forall k :: 0 <= k < |ts| ==> WellFormedToken(ts[k])) &&
    (forall k :: 0 < k < |ts| ==> !(IsRun(ts[k - 1]) && IsRun(ts[k])))
  }

  /** What the scan keeps between steps: the tokens and the pending run spell
    * the kept characters read so far, the tokens are well formed, and the
    * last token is never a number run (a run is only pushed just before an
    * operator or a parenthesis). */
  ghost predicate ScanState(e: string, i: nat, tokens: seq<string>, current: string)
    requires i <= |e|
  {
    Flatten(tokens) + current == FilterChars(e[..i], IsTokenChar) &&
    TokensOk(tokens) &&
    (current == [] || IsRun(current)) &&
    (tokens != [] ==> !IsRun(tokens[|tokens| - 1]))
  }

  lemma KeptPrefix(e: string, i: nat, n: nat)
    requires i + n <= |e|
    ensures FilterChars(e[..i + n], IsTokenChar) == FilterChars(e[..i], IsTokenChar) + FilterChars(e[i..i + n], IsTokenChar)
  {
    assert e[..i + n] == e[..i] + e[i..i + n];
    FilterCharsConcat(e[..i], e[i..i + n], IsTokenChar);
  }

  /** Appending a well-formed token keeps the token invariants. */
  lemma AppendToken(ts: seq<string>, t: string)
    requires TokensOk(ts)
    requires WellFormedToken(t) && (IsRun(t) ==> ts == [] || !IsRun(ts[|ts| - 1]))
    ensures TokensOk(ts + [t])
    ensures Flatten(ts + [t]) == Flatten(ts) + t
  {
    FlattenSnoc(ts, t);
  }

  lemma FlushState(e: string, i: nat, tokens: seq<string>, current: string)
    requires i <= |e| && ScanState(e, i, tokens, current)
    ensures TokensOk(FlushRun(tokens, current))
    ensures Flatten(FlushRun(tokens, current)) == FilterChars(e[..i], IsTokenChar)
  {
    if current != [] {
      AppendToken(tokens, current);
    }
  }

  lemma KeepOne(e: string, i: nat)
    requires i < |e|
    ensures FilterChars(e[..i + 1], IsTokenChar) ==
      FilterChars(e[..i], IsTokenChar) + (if IsTokenChar(e[i]) then [e[i]] else [])
  {
    KeptPrefix(e, i, 1);
    assert e[i..i + 1] == [e[i]];
  }

  lemma NumberStep(e: string, i: nat, tokens: seq<string>, current: string)
    requires i < |e| && IsNumberChar(e[i]) && ScanState(e, i, tokens, current)
    ensures ScanState(e, i + 1, tokens, current + [e[i]])
  {
    KeepOne(e, i);
  }

  lemma DropStep(e: string, i: nat, tokens: seq<string>, current: string)
    requires i < |e| && !IsTokenChar(e[i]) && ScanState(e, i, tokens, current)
    ensures ScanState(e, i + 1, tokens, current)
  {
    KeepOne(e, i);
  }

  /** Pushing a one-character operator or parenthesis token keeps the tokens
    * well formed and leaves a last token that is not a number run. */
  lemma PushSingle(f: seq<string>, c: char)
    requires TokensOk(f) && (IsOperatorChar(c) || c == '(' || c == ')')
    ensures TokensOk(f + [[c]]) && Flatten(f + [[c]]) == Flatten(f) + [c]
    ensures !IsRun((f + [[c]])[|f|])
  {
    var t := [c];
    assert !IsNumberChar(t[0]);
    AppendToken(f, t);
  }

  lemma SingleStep(e: string, i: nat, tokens: seq<string>, current: string)
    requires i < |e| && (IsOperatorChar(e[i]) || e[i] == '(' || e[i] == ')')
    requires ScanState(e, i, tokens, current)
    ensures ScanState(e, i + 1, FlushRun(tokens, current) + [[e[i]]], [])
  {
    FlushState(e, i, tokens, current);
    KeepOne(e, i);
    PushSingle(FlushRun(tokens, current), e[i]);
  }

  lemma DoubleStarStep(e: string, i: nat, tokens: seq<string>, current: string)
    requires i + 1 < |e| && e[i] == '*' && e[i + 1] == '*'
    requires ScanState(e, i, tokens, current)
    ensures ScanState(e, i + 2, FlushRun(tokens, current) + ["**"], [])
  {
    FlushState(e, i, tokens, current);
    KeptPrefix(e, i, 2);
    assert e[i..i + 2] == "**";
    assert FilterChars("**", IsTokenChar) == "**";
    AppendToken(FlushRun(tokens, current), "**");
  }

  /** Where one step of the scan leaves the position, the tokens and the
    * pending run. */
  function ScanStep(e: string, i: nat, tokens: seq<string>, current: string): (r: (nat, seq<string>, string))
    requires i < |e|
    ensures i < r.0 <= |e|
  {
    var c := e[i];
    if IsNumberChar(c) then (i + 1, tokens, current + [c])
    else if IsOperatorChar(c) then
      if c == '*' && i + 1 < |e| && e[i + 1] == '*' then (i + 2, FlushRun(tokens, current) + ["**"], [])
      else (i + 1, FlushRun(tokens, current) + [[c]], [])
    else if c == '(' || c == ')' then (i + 1, FlushRun(tokens, current) + [[c]], [])
    else (i + 1, tokens, current)
  }

  /** The scan goes on from where one step leaves it. */
  lemma ScanStepFollows(e: string, i: nat, tokens: seq<string>, current: string)
    requires i < |e|
    ensures var n := ScanStep(e, i, tokens, current);
      TokenizeFrom(e, i, tokens, current) == TokenizeFrom(e, n.0, n.1, n.2)
  {}

  /** One step keeps the scan state. */
  lemma ScanStepKeeps(e: string, i: nat, tokens: seq<string>, current: string)
    requires i < |e| && ScanState(e, i, tokens, current)
    ensures var n := ScanStep(e, i, tokens, current); ScanState(e, n.0, n.1, n.2)
  {
    var c := e[i];
    if IsNumberChar(c) {
      NumberStep(e, i, tokens, current);
    } else if IsOperatorChar(c) {
      if c == '*' && i + 1 < |e| && e[i + 1] == '*' {
        DoubleStarStep(e, i, tokens, current);
      } else {
        SingleStep(e, i, tokens, current);
      }
    } else if c == '(' || c == ')' {
      SingleStep(e, i, tokens, current);
    } else {
      DropStep(e, i, tokens, current);
    }
  }

  lemma {:induction false} TokenizeFromProperties(e: string, i: nat, tokens: seq<string>, current: string)
    requires i <= |e| && ScanState(e, i, tokens, current)
    ensures Flatten(TokenizeFrom(e, i, tokens, current)) == FilterChars(e, IsTokenChar)
    ensures TokensOk(TokenizeFrom(e, i, tokens, current))
    decreases |e| - i
  {
    if i == |e| {
      assert e[..i] == e;
      FlushState(e, i, tokens, current);
    } else {
      var n := ScanStep(e, i, tokens, current);
      ScanStepFollows(e, i, tokens, current);
      ScanStepKeeps(e, i, tokens, current);
      TokenizeFromProperties(e, n.0, n.1, n.2);
    }
  }

  /** Tokenizing loses and invents no kept character: the tokens spell the
    * expression with every other character removed, each token is well
    * formed, and two number runs are never adjacent. */
  lemma TokensProperties(e: string)
    ensures Flatten(Tokens(e)) == FilterChars(e, IsTokenChar)
    ensures forall k :: 0 <= k < |Tokens(e)| ==> WellFormedToken(Tokens(e)[k])
    ensures forall k :: 0 < k < |Tokens(e)| ==> !(IsRun(Tokens(e)[k - 1]) && IsRun(Tokens(e)[k]))
  {
    assert e[..0] == [];
    TokenizeFromProperties(e, 0, [], []);
    var r := Tokens(e);
    assert TokensOk(r);
  }

  // ---------------------------------------------------------------------
  // Parenthesis balance
  // ---------------------------------------------------------------------

  /** Opening minus closing parentheses. */
  function ParenDepth(s: string): int {
    if s == [] then 0
    else ParenDepth(s[..|s| - 1]) + (if s[|s| - 1] == '(' then 1 else if s[|s| - 1] == ')' then -1 else 0)
  }

  /** No prefix closes more parentheses than it opened, and all are closed. */
  ghost predicate ParensBalanced(s: string) {
    (forall k :: 0 <= k <= |s| ==> ParenDepth(s[..k]) >= 0) && ParenDepth(s) == 0
  }

  /** hasBalancedParentheses(expression). */
  method HasBalancedParentheses(e: string) returns (b: bool)
    ensures b <==> ParensBalanced(e)
  {
    var count := 0;
    var i := 0;
    while i < |e|
      invariant 0 <= i <= |e|
      invariant count == ParenDepth(e[..i])
      invariant forall k :: 0 <= k <= i ==> ParenDepth(e[..k]) >= 0
    {
      assert e[..i + 1][..i] == e[..i];
      if e[i] == '(' {
        count := count + 1;
      } else if e[i] == ')' {
        count := count - 1;
      }
      if count < 0 {
        assert ParenDepth(e[..i + 1]) < 0;
        return false;
      }
      i := i + 1;
    }
    assert e[..i] == e;
    b := count == 0;
  }
}
