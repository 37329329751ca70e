/** The shunting-yard conversion of the formula calculator's tokens to
  * postfix, and the postfix stack machine that evaluates the result. */
module FormulaPostfix {
  import opened Basics
  import opened Text
  import opened JsValues
  import opened FormulaCalculator

  /** An item of the postfix output: a number, an operator, or a `(` that no
    * `)` removed from the operator stack. */
  datatype PItem = PNum(value: real) | POp(op: Op) | POpen

  /** An entry of the operator stack. */
  datatype StackItem = SOpen | SOp(op: Op)

  /** How the conversion treats a token, tested in the order the converter
    * tests it: a number first, then the parentheses, then an operator; any
    * other token (a lone `.`, `1.2.3`) is skipped. */
  datatype Kind = KNum(v: real) | KOpen | KClose | KOp(op: Op) | KOther

  /** isNumber: parseFloat finds a number and Number() accepts the whole
    * token; the value pushed is parseFloat's. */
  function Classify(t: string): (k: Kind)
    ensures k.KOpen? ==> t == "("
    ensures k.KClose? ==> t == ")"
    ensures k.KOp? ==> t == OpText(k.op)
  {
    ClassifyParsed(t, ParseFloatPrefix(t), StringToNumber(t))
  }

  /** Classify, given what parseFloat and Number() make of the token. */
  function ClassifyParsed(t: string, p: Option<real>, n: Option<real>): (k: Kind)
    ensures k.KOpen? ==> t == "("
    ensures k.KClose? ==> t == ")"
    ensures k.KOp? ==> t == OpText(k.op)
  {
    if p.Some? && n.Some? then KNum(p.value)
    else if t == "(" then KOpen
    else if t == ")" then KClose
    else match ParseOp(t)
      case Some(op) => KOp(op)
      case None => KOther
  }

  /** A token made of symbols only is not a number for parseFloat or Number(). */
  lemma SymbolNotNumber(t: string)
    requires t != [] && forall k :: 0 <= k < |t| ==> !IsDigit(t[k]) && t[k] != '.' && !IsSpace(t[k])
    ensures ParseFloatPrefix(t) == None && StringToNumber(t) == None
  {
    assert TrimStart(t) == t;
    TrimNoSpaceEnds(t);
    DecimalPrefixNone(t);
    DecimalPrefixNone(t[1..]);
  }

  /** Parentheses and operator tokens are never taken for numbers. */
  lemma ClassifyParens()
    ensures Classify("(") == KOpen && Classify(")") == KClose
  {
    SymbolNotNumber("(");
    SymbolNotNumber(")");
  }

  /** An operator's text is made of symbols and is not a parenthesis. */
  lemma OpTextSymbols(op: Op)
    ensures var t := OpText(op);
      t != [] && t != "(" && t != ")" &&
      forall k :: 0 <= k < |t| ==> !IsDigit(t[k]) && t[k] != '.' && !IsSpace(t[k])
  {}

  /** A symbol token other than a parenthesis is an operator or skipped. */
  lemma ClassifySymbol(t: string)
    requires t != [] && forall k :: 0 <= k < |t| ==> !IsDigit(t[k]) && t[k] != '.' && !IsSpace(t[k])
    requires t != "(" && t != ")"
    ensures Classify(t) == match ParseOp(t) case Some(op) => KOp(op) case None => KOther
  {
    SymbolNotNumber(t);
  }

  lemma ClassifyOperator(op: Op)
    ensures Classify(OpText(op)) == KOp(op)
  {
    OpTextSymbols(op);
    ClassifySymbol(OpText(op));
    ParseOpText(op);
  }

  function StackToOutput(s: StackItem): PItem {
    match s
    case SOpen => POpen
    case SOp(op) => POp(op)
  }

  function Top(stack: seq<StackItem>): StackItem
    requires stack != []
  {
    stack[|stack| - 1]
  }

  function Pop(stack: seq<StackItem>): seq<StackItem>
    requires stack != []
  {
    stack[..|stack| - 1]
  }

  /** Before pushing `op`: moves to the output every stacked operator that
    * binds at least as tightly, stopping at a `(`. */
  function PopHigher(out: seq<PItem>, stack: seq<StackItem>, op: Op): (seq<PItem>, seq<StackItem>)
    decreases |stack|
  {
    if stack != [] && Top(stack).SOp? && HasHigherPrecedence(Top(stack).op, op)
    then PopHigher(out + [POp(Top(stack).op)], Pop(stack), op)
    else (out, stack)
  }

  /** At `)`: moves operators to the output down to the nearest `(`, then
    * pops one more entry, which is that `(` when there is one. */
  function PopToOpen(out: seq<PItem>, stack: seq<StackItem>): (seq<PItem>, seq<StackItem>)
    decreases |stack|
  {
    if stack == [] then (out, [])
    else if Top(stack) == SOpen then (out, Pop(stack))
    else PopToOpen(out + [POp(Top(stack).op)], Pop(stack))
  }

  /** After the last token: everything left on the stack, top first. */
  function FlushAll(out: seq<PItem>, stack: seq<StackItem>): seq<PItem>
    decreases |stack|
  {
    if stack == [] then out
    else FlushAll(out + [StackToOutput(Top(stack))], Pop(stack))
  }

  /** Each token's classification. */
  function Kinds(ts: seq<string>): (ks: seq<Kind>)
    ensures |ks| == |ts|
  {
    seq(|ts|, i requires 0 <= i < |ts| => Classify(ts[i]))
  }

  /** The conversion from token `i` on, with the output and operator stack
    * built so far. */
  function PostfixFrom(ts: seq<Kind>, i: nat, out: seq<PItem>, stack: seq<StackItem>): seq<PItem>
    requires i <= |ts|
    decreases |ts| - i
  {
    if i == |ts| then FlushAll(out, stack)
    else
      match ts[i]
      case KNum(v) => PostfixFrom(ts, i + 1, out + [PNum(v)], stack)
      case KOpen => PostfixFrom(ts, i + 1, out, stack + [SOpen])
      case KClose =>
        var p := PopToOpen(out, stack);
        PostfixFrom(ts, i + 1, p.0, p.1)
      case KOp(op) =>
        var p := PopHigher(out, stack, op);
        PostfixFrom(ts, i + 1, p.0, p.1 + [SOp(op)])
      case KOther => PostfixFrom(ts, i + 1, out, stack)
  }

  function Postfix(ts: seq<string>): seq<PItem> {
    PostfixFrom(Kinds(ts), 0, [], [])
  }

  /** toPostfix(expression). */
  method ToPostfix(e: string) returns (output: seq<PItem>)
    ensures output == Postfix(Tokens(e))
  {
    var tokens := Tokenize(e);
    var ts := Kinds(tokens);
    output := [];
    var stack: seq<StackItem> := [];
    var i := 0;
    while i < |ts|
      invariant 0 <= i <= |ts|
      invariant PostfixFrom(ts, i, output, stack) == Postfix(tokens)
    {
      var k := Classify(tokens[i]);
      assert ts[i] == k;
      match k {
        case KNum(v) =>
          output := output + [PNum(v)];
        case KOpen =>
          stack := stack + [SOpen];
        case KClose =>
          output, stack := CloseParen(output, stack);
        case KOp(op) =>
          output, stack := PopBefore(output, stack, op);
          stack := stack + [SOp(op)];
        case KOther =>
      }
      i := i + 1;
    }
    output := FlushStack(output, stack);
  }

  /** The `)` case of toPostfix: operators are moved to the output down to
    * the nearest `(`, which is then dropped. */
  method CloseParen(output: seq<PItem>, stack: seq<StackItem>) returns (out: seq<PItem>, rest: seq<StackItem>)
    ensures (out, rest) == PopToOpen(output, stack)
  {
    out, rest := output, stack;
    while rest != [] && rest[|rest| - 1] != SOpen
      invariant PopToOpen(out, rest) == PopToOpen(output, stack)
      decreases |rest|
    {
      out := out + [POp(rest[|rest| - 1].op)];
      rest := rest[..|rest| - 1];
    }
    if rest != [] {
      rest := rest[..|rest| - 1];
    }
  }

  /** The operator case of toPostfix before the push: every stacked
    * operator binding at least as tightly is moved to the output. */
  method PopBefore(output: seq<PItem>, stack: seq<StackItem>, op: Op) returns (out: seq<PItem>, rest: seq<StackItem>)
    ensures (out, rest) == PopHigher(output, stack, op)
  {
    out, rest := output, stack;
    while rest != [] && rest[|rest| - 1].SOp? && HasHigherPrecedence(rest[|rest| - 1].op, op)
      invariant PopHigher(out, rest, op) == PopHigher(output, stack, op)
      decreases |rest|
    {
      out := out + [POp(rest[|rest| - 1].op)];
      rest := rest[..|rest| - 1];
    }
  }

  /** The final loop of toPostfix: the stack emptied onto the output. */
  method FlushStack(output: seq<PItem>, stack: seq<StackItem>) returns (out: seq<PItem>)
    ensures out == FlushAll(output, stack)
  {
    out := output;
    var rest := stack;
    while rest != []
      invariant FlushAll(out, rest) == FlushAll(output, stack)
      decreases |rest|
    {
      out := out + [StackToOutput(rest[|rest| - 1])];
      rest := rest[..|rest| - 1];
    }
  }

  // ---------------------------------------------------------------------
  // What the conversion preserves
  // ---------------------------------------------------------------------

  /** The numbers of a postfix sequence, in order. */
  function NumsOf(items: seq<PItem>): seq<real> {
    if items == [] then []
    else NumsOf(items[..|items| - 1]) + (if items[|items| - 1].PNum? then [items[|items| - 1].value] else [])
  }

  /** The operators of a postfix sequence. */
  function OpBag(items: seq<PItem>): multiset<Op> {
    if items == [] then multiset{}
    else OpBag(items[..|items| - 1]) + (if items[|items| - 1].POp? then multiset{items[|items| - 1].op} else multiset{})
  }

  /** The operators on the operator stack. */
  function StackBag(stack: seq<StackItem>): multiset<Op> {
    if stack == [] then multiset{}
    else StackBag(Pop(stack)) + (if Top(stack).SOp? then multiset{Top(stack).op} else multiset{})
  }

  /** The number of `(` entries on the operator stack. */
  function OpenCount(stack: seq<StackItem>): nat {
    if stack == [] then 0 else OpenCount(Pop(stack)) + (if Top(stack) == SOpen then 1 else 0)
  }

  /** The values of the number tokens, in order. */
  function TokenNumbers(ts: seq<Kind>): seq<real> {
    if ts == [] then []
    else (match ts[0] case KNum(v) => [v] case _ => []) + TokenNumbers(ts[1..])
  }

  /** The operator tokens. */
  function TokenOps(ts: seq<Kind>): multiset<Op> {
    if ts == [] then multiset{}
    else (match ts[0] case KOp(op) => multiset{op} case _ => multiset{}) + TokenOps(ts[1..])
  }

  /** Opening minus closing parenthesis tokens. */
  function TokenDepth(ts: seq<Kind>): int {
    if ts == [] then 0
    else TokenDepth(ts[..|ts| - 1]) + (match ts[|ts| - 1] case KOpen => 1 case KClose => -1 case _ => 0)
  }

  ghost predicate TokensBalanced(ts: seq<Kind>) {
    (forall k :: 0 <= k <= |ts| ==> TokenDepth(ts[..k]) >= 0) && TokenDepth(ts) == 0
  }

  lemma Snoc<T>(s: seq<T>, x: T)
    ensures (s + [x])[..|s|] == s && (s + [x])[|s|] == x
  {}

  /** Moving the stack's top operator to the output keeps the numbers, the
    * operators, the `(` entries, and keeps `(` out of the output. */
  lemma MoveOp(out: seq<PItem>, stack: seq<StackItem>)
    requires stack != [] && Top(stack).SOp?
    ensures NumsOf(out + [POp(Top(stack).op)]) == NumsOf(out)
    ensures OpBag(out + [POp(Top(stack).op)]) + StackBag(Pop(stack)) == OpBag(out) + StackBag(stack)
    ensures OpenCount(Pop(stack)) == OpenCount(stack)
    ensures POpen !in out ==> POpen !in out + [POp(Top(stack).op)]
  {
    Snoc(out, POp(Top(stack).op));
  }

  lemma {:induction false} PopHigherKeeps(out: seq<PItem>, stack: seq<StackItem>, op: Op)
    ensures NumsOf(PopHigher(out, stack, op).0) == NumsOf(out)
    ensures OpBag(PopHigher(out, stack, op).0) + StackBag(PopHigher(out, stack, op).1) == OpBag(out) + StackBag(stack)
    ensures OpenCount(PopHigher(out, stack, op).1) == OpenCount(stack)
    ensures POpen !in out ==> POpen !in PopHigher(out, stack, op).0
    decreases |stack|
  {
    if stack != [] && Top(stack).SOp? && HasHigherPrecedence(Top(stack).op, op) {
      MoveOp(out, stack);
      PopHigherKeeps(out + [POp(Top(stack).op)], Pop(stack), op);
    }
  }

  lemma {:induction false} PopToOpenKeeps(out: seq<PItem>, stack: seq<StackItem>)
    ensures NumsOf(PopToOpen(out, stack).0) == NumsOf(out)
    ensures OpBag(PopToOpen(out, stack).0) + StackBag(PopToOpen(out, stack).1) == OpBag(out) + StackBag(stack)
    ensures OpenCount(stack) > 0 ==> OpenCount(PopToOpen(out, stack).1) == OpenCount(stack) - 1
    ensures POpen !in out ==> POpen !in PopToOpen(out, stack).0
    decreases |stack|
  {
    if stack != [] && Top(stack) != SOpen {
      MoveOp(out, stack);
      PopToOpenKeeps(out + [POp(Top(stack).op)], Pop(stack));
    }
  }

  lemma {:induction false} FlushAllKeeps(out: seq<PItem>, stack: seq<StackItem>)
    ensures NumsOf(FlushAll(out, stack)) == NumsOf(out)
    ensures OpBag(FlushAll(out, stack)) == OpBag(out) + StackBag(stack)
    ensures POpen !in out && OpenCount(stack) == 0 ==> POpen !in FlushAll(out, stack)
    decreases |stack|
  {
    if stack != [] {
      Snoc(out, StackToOutput(Top(stack)));
      FlushAllKeeps(out + [StackToOutput(Top(stack))], Pop(stack));
    }
  }

  lemma {:induction false} PostfixFromNumbers(ts: seq<Kind>, i: nat, out: seq<PItem>, stack: seq<StackItem>)
    requires i <= |ts|
    ensures NumsOf(PostfixFrom(ts, i, out, stack)) == NumsOf(out) + TokenNumbers(ts[i..])
    decreases |ts| - i
  {
    if i == |ts| {
      FlushAllKeeps(out, stack);
    } else {
      assert ts[i..][1..] == ts[i + 1..];
      match ts[i] {
        case KNum(v) =>
          Snoc(out, PNum(v));
          PostfixFromNumbers(ts, i + 1, out + [PNum(v)], stack);
        case KOpen =>
          Snoc(stack, SOpen);
          PostfixFromNumbers(ts, i + 1, out, stack + [SOpen]);
        case KClose =>
          var p := PopToOpen(out, stack);
          PopToOpenKeeps(out, stack);
          PostfixFromNumbers(ts, i + 1, p.0, p.1);
        case KOp(op) =>
          var p := PopHigher(out, stack, op);
          PopHigherKeeps(out, stack, op);
          Snoc(p.1, SOp(op));
          PostfixFromNumbers(ts, i + 1, p.0, p.1 + [SOp(op)]);
        case KOther =>
          PostfixFromNumbers(ts, i + 1, out, stack);
      }
    }
  }

  /** The bag of operators still to be emitted is the same before and after
    * one token is consumed. */
  lemma OpsStep(ts: seq<Kind>, i: nat, out: seq<PItem>, stack: seq<StackItem>)
    requires i < |ts|
    ensures ts[i..] == [ts[i]] + ts[i + 1..]
    ensures TokenOps(ts[i..]) == (if ts[i].KOp? then multiset{ts[i].op} else multiset{}) + TokenOps(ts[i + 1..])
    ensures ts[i].KNum? ==> OpBag(out + [PNum(ts[i].v)]) == OpBag(out)
    ensures ts[i].KOpen? ==> StackBag(stack + [SOpen]) == StackBag(stack)
    ensures ts[i].KOp? ==> StackBag(stack + [SOp(ts[i].op)]) == StackBag(stack) + multiset{ts[i].op}
  {
    assert ts[i..][1..] == ts[i + 1..];
    Snoc(out, PNum(0.0));
    if ts[i].KNum? { Snoc(out, PNum(ts[i].v)); }
    Snoc(stack, SOpen);
    if ts[i].KOp? { Snoc(stack, SOp(ts[i].op)); }
  }

  lemma {:induction false} PostfixFromOps(ts: seq<Kind>, i: nat, out: seq<PItem>, stack: seq<StackItem>)
    requires i <= |ts|
    ensures OpBag(PostfixFrom(ts, i, out, stack)) == OpBag(out) + StackBag(stack) + TokenOps(ts[i..])
    decreases |ts| - i
  {
    if i == |ts| {
      FlushAllKeeps(out, stack);
    } else {
      OpsStep(ts, i, out, stack);
      var rest := TokenOps(ts[i + 1..]);
      match ts[i] {
        case KNum(v) =>
          PostfixFromOps(ts, i + 1, out + [PNum(v)], stack);
        case KOpen =>
          PostfixFromOps(ts, i + 1, out, stack + [SOpen]);
        case KClose =>
          var p := PopToOpen(out, stack);
          PopToOpenKeeps(out, stack);
          PostfixFromOps(ts, i + 1, p.0, p.1);
        case KOp(op) =>
          var p := PopHigher(out, stack, op);
          PopHigherKeeps(out, stack, op);
          OpsStep(ts, i, p.0, p.1);
          PostfixFromOps(ts, i + 1, p.0, p.1 + [SOp(op)]);
          assert OpBag(p.0) + StackBag(p.1 + [SOp(op)]) + rest
            == OpBag(out) + StackBag(stack) + (multiset{op} + rest);
        case KOther =>
          PostfixFromOps(ts, i + 1, out, stack);
      }
    }
  }

  /** toPostfix keeps the numbers in their input order and every operator
    * token exactly once. */
  lemma PostfixPreservesTokens(ts: seq<string>)
    ensures NumsOf(Postfix(ts)) == TokenNumbers(Kinds(ts))
    ensures OpBag(Postfix(ts)) == TokenOps(Kinds(ts))
  {
    var ks := Kinds(ts);
    assert ks[0..] == ks;
    PostfixFromNumbers(ks, 0, [], []);
    PostfixFromOps(ks, 0, [], []);
  }

  /** The output and the stack after token `i` is consumed. */
  function StepState(ts: seq<Kind>, i: nat, out: seq<PItem>, stack: seq<StackItem>): (seq<PItem>, seq<StackItem>)
    requires i < |ts|
  {
    match ts[i]
    case KNum(v) => (out + [PNum(v)], stack)
    case KOpen => (out, stack + [SOpen])
    case KClose => PopToOpen(out, stack)
    case KOp(op) => var p := PopHigher(out, stack, op); (p.0, p.1 + [SOp(op)])
    case KOther => (out, stack)
  }

  /** One token keeps `(` out of the output and keeps the `(` entries on the
    * stack equal to the depth of the tokens read, as long as that depth
    * never drops below zero. */
  lemma NoOpenStep(ts: seq<Kind>, i: nat, out: seq<PItem>, stack: seq<StackItem>)
    requires i < |ts| && POpen !in out
    requires OpenCount(stack) == TokenDepth(ts[..i]) && TokenDepth(ts[..i + 1]) >= 0
    ensures var n := StepState(ts, i, out, stack);
      POpen !in n.0 && OpenCount(n.1) == TokenDepth(ts[..i + 1]) &&
      PostfixFrom(ts, i, out, stack) == PostfixFrom(ts, i + 1, n.0, n.1)
  {
    assert ts[..i + 1][..i] == ts[..i];
    match ts[i] {
      case KNum(v) =>
      case KOpen =>
        Snoc(stack, SOpen);
      case KClose =>
        PopToOpenKeeps(out, stack);
      case KOp(op) =>
        var p := PopHigher(out, stack, op);
        PopHigherKeeps(out, stack, op);
        Snoc(p.1, SOp(op));
      case KOther =>
    }
  }

  lemma {:induction false} PostfixFromNoOpen(ts: seq<Kind>, i: nat, out: seq<PItem>, stack: seq<StackItem>)
    requires i <= |ts| && POpen !in out
    requires OpenCount(stack) == TokenDepth(ts[..i])
    requires forall k :: i <= k <= |ts| ==> TokenDepth(ts[..k]) >= 0
    requires TokenDepth(ts) == 0
    ensures POpen !in PostfixFrom(ts, i, out, stack)
    decreases |ts| - i
  {
    if i == |ts| {
      assert ts[..i] == ts;
      FlushAllKeeps(out, stack);
    } else {
      assert TokenDepth(ts[..i + 1]) >= 0;
      NoOpenStep(ts, i, out, stack);
      var n := StepState(ts, i, out, stack);
      PostfixFromNoOpen(ts, i + 1, n.0, n.1);
    }
  }

  /** With balanced parenthesis tokens every `(` is removed by its `)`, so no
    * parenthesis reaches the output. */
  lemma BalancedTokensNoParen(ts: seq<string>)
    requires TokensBalanced(Kinds(ts))
    ensures POpen !in Postfix(ts)
  {
    var ks := Kinds(ts);
    assert ks[..0] == [];
    PostfixFromNoOpen(ks, 0, [], []);
  }

  // ---------------------------------------------------------------------
  // From balanced characters to balanced tokens
  // ---------------------------------------------------------------------

  lemma {:induction false} ParenDepthConcat(a: string, b: string)
    ensures ParenDepth(a + b) == ParenDepth(a) + ParenDepth(b)
    decreases |b|
  {
    if b == [] {
      assert a + b == a;
    } else {
      assert (a + b)[..|a + b| - 1] == a + b[..|b| - 1];
      ParenDepthConcat(a, b[..|b| - 1]);
    }
  }

  lemma ParenDepthSingle(c: char)
    ensures ParenDepth([c]) == if c == '(' then 1 else if c == ')' then -1 else 0
  {
    assert [c][..0] == [];
  }

  lemma {:induction false} NoParenDepth(s: string)
    requires forall k :: 0 <= k < |s| ==> s[k] != '(' && s[k] != ')'
    ensures ParenDepth(s) == 0
  {
    if s != [] {
      NoParenDepth(s[..|s| - 1]);
    }
  }

  lemma {:induction false} FlattenConcat(a: seq<string>, b: seq<string>)
    ensures Flatten(a + b) == Flatten(a) + Flatten(b)
    decreases |b|
  {
    if b == [] {
      assert a + b == a;
    } else {
      var init := b[..|b| - 1];
      var last := b[|b| - 1];
      assert a + b == (a + init) + [last];
      assert b == init + [last];
      FlattenConcat(a, init);
      FlattenSnoc(a + init, last);
      FlattenSnoc(init, last);
    }
  }

  /** A well-formed token's parenthesis depth is what its classification says. */
  lemma TokenParenDepth(t: string)
    requires WellFormedToken(t)
    ensures ParenDepth(t) == match Classify(t) case KOpen => 1 case KClose => -1 case _ => 0
  {
    if t == "(" || t == ")" {
      ClassifyParens();
      ParenDepthSingle(t[0]);
    } else {
      NoParenDepth(t);
    }
  }

  lemma {:induction false} TokenDepthFlatten(ts: seq<string>)
    requires forall k :: 0 <= k < |ts| ==> WellFormedToken(ts[k])
    ensures TokenDepth(Kinds(ts)) == ParenDepth(Flatten(ts))
  {
    if ts != [] {
      var init := ts[..|ts| - 1];
      assert Kinds(ts)[..|ts| - 1] == Kinds(init);
      TokenDepthFlatten(init);
      ParenDepthConcat(Flatten(init), ts[|ts| - 1]);
      TokenParenDepth(ts[|ts| - 1]);
    }
  }

  /** Dropping the characters the tokenizer ignores keeps the depth. */
  lemma {:induction false} FilterDepth(s: string)
    ensures ParenDepth(FilterChars(s, IsTokenChar)) == ParenDepth(s)
  {
    if s != [] {
      FilterDepth(s[1..]);
      assert s == [s[0]] + s[1..];
      ParenDepthConcat([s[0]], s[1..]);
      ParenDepthSingle(s[0]);
      var h := if IsTokenChar(s[0]) then [s[0]] else [];
      ParenDepthConcat(h, FilterChars(s[1..], IsTokenChar));
    }
  }

  /** When no prefix of `s` goes below `-d`, no prefix of its kept
    * characters does either. */
  lemma {:induction false} FilterPrefixDepth(s: string, d: int)
    requires forall k :: 0 <= k <= |s| ==> d + ParenDepth(s[..k]) >= 0
    ensures forall m :: 0 <= m <= |FilterChars(s, IsTokenChar)| ==> d + ParenDepth(FilterChars(s, IsTokenChar)[..m]) >= 0
  {
    var f := FilterChars(s, IsTokenChar);
    assert s[..0] == [];
    if s != [] {
      var c := s[0];
      var dc := if c == '(' then 1 else if c == ')' then -1 else 0;
      ParenDepthSingle(c);
      forall k | 0 <= k <= |s[1..]| ensures (d + dc) + ParenDepth(s[1..][..k]) >= 0 {
        assert s[..k + 1] == [c] + s[1..][..k];
        ParenDepthConcat([c], s[1..][..k]);
      }
      FilterPrefixDepth(s[1..], d + dc);
      var rest := FilterChars(s[1..], IsTokenChar);
      forall m | 0 <= m <= |f| ensures d + ParenDepth(f[..m]) >= 0 {
        if m == 0 {
          assert f[..0] == [];
        } else if IsTokenChar(c) {
          assert f[..m] == [c] + rest[..m - 1];
          ParenDepthConcat([c], rest[..m - 1]);
        } else {
          assert f[..m] == rest[..m];
        }
      }
    }
  }

  /** Balanced parentheses in the expression give balanced parenthesis
    * tokens. */
  lemma ParensBalancedTokens(e: string)
    requires ParensBalanced(e)
    ensures TokensBalanced(Kinds(Tokens(e)))
  {
    var ts := Tokens(e);
    TokensProperties(e);
    FilterPrefixDepth(e, 0);
    forall k | 0 <= k <= |ts| ensures TokenDepth(Kinds(ts)[..k]) >= 0 {
      TokenPrefixDepth(ts, FilterChars(e, IsTokenChar), k);
    }
    TokenDepthFlatten(ts);
    FilterDepth(e);
  }

  /** A prefix of well-formed tokens spells a prefix of their text, so its
    * parenthesis depth is one of the text's prefix depths. */
  lemma TokenPrefixDepth(ts: seq<string>, f: string, k: nat)
    requires forall i :: 0 <= i < |ts| ==> WellFormedToken(ts[i])
    requires Flatten(ts) == f && k <= |ts|
    requires forall m :: 0 <= m <= |f| ==> ParenDepth(f[..m]) >= 0
    ensures TokenDepth(Kinds(ts)[..k]) >= 0
  {
    var pre := ts[..k];
    assert Kinds(ts)[..k] == Kinds(pre);
    TokenDepthFlatten(pre);
    FlattenPrefix(ts, k);
  }

  /** The text of a prefix of the tokens is a prefix of their text. */
  lemma FlattenPrefix(ts: seq<string>, k: nat)
    requires k <= |ts|
    ensures |Flatten(ts[..k])| <= |Flatten(ts)|
    ensures Flatten(ts[..k]) == Flatten(ts)[..|Flatten(ts[..k])|]
  {
    assert ts == ts[..k] + ts[k..];
    FlattenConcat(ts[..k], ts[k..]);
  }

  /** For an expression with balanced parentheses, toPostfix's output holds
    * no parenthesis. */
  lemma BalancedNoParenInOutput(e: string)
    requires ParensBalanced(e)
    ensures POpen !in Postfix(Tokens(e))
  {
    ParensBalancedTokens(e);
    BalancedTokensNoParen(Tokens(e));
  }
}
