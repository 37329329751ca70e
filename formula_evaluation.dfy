/** evaluatePostfix: the stack machine that runs the converter's output. */
module FormulaEvaluation {
  import opened Basics
  import opened FormulaCalculator
  import opened FormulaPostfix

  /** One item: a number is pushed; an operator replaces the top two values
    * by its result and needs at least two; a stray `(` is ignored. */
  function Step(stack: seq<Num>, item: PItem, pow: (real, real) -> Num): (r: Result<seq<Num>, CalcError>)
    ensures item.PNum? ==> r == Ok(stack + [Finite(item.value)])
    ensures item.POp? && |stack| < 2 ==> r == Err(InsufficientOperands)
    ensures item.POp? && r.Ok? ==> |r.value| == |stack| - 1 && r.value[..|stack| - 2] == stack[..|stack| - 2]
    ensures item.POpen? ==> r == Ok(stack)
  {
    match item
    case PNum(v) => Ok(stack + [Finite(v)])
    case POpen => Ok(stack)
    case POp(op) =>
      if |stack| < 2 then Err(InsufficientOperands)
      else
        match ApplyOperator(stack[|stack| - 2], stack[|stack| - 1], op, pow)
        case Err(e) => Err(e)
        case Ok(v) => Ok(stack[..|stack| - 2] + [v])
  }

  /** The machine run over `items` from the stack `stack`; the first error
    * stops it. */
  function RunFrom(stack: seq<Num>, items: seq<PItem>, pow: (real, real) -> Num): Result<seq<Num>, CalcError>
    decreases |items|
  {
    if items == [] then Ok(stack)
    else
      match Step(stack, items[0], pow)
      case Err(e) => Err(e)
      case Ok(s) => RunFrom(s, items[1..], pow)
  }

  /** The whole run: exactly one value must remain. */
  function RunPostfix(items: seq<PItem>, pow: (real, real) -> Num): Result<Num, CalcError> {
    match RunFrom([], items, pow)
    case Err(e) => Err(e)
    case Ok(st) => if |st| != 1 then Err(Malformed) else Ok(st[0])
  }

  /** evaluatePostfix(postfix). */
  method EvaluatePostfix(items: seq<PItem>, pow: (real, real) -> Num) returns (r: Result<Num, CalcError>)
    ensures r == RunPostfix(items, pow)
  {
    var stack: seq<Num> := [];
    var i := 0;
    while i < |items|
      invariant 0 <= i <= |items|
      invariant RunFrom(stack, items[i..], pow) == RunFrom([], items, pow)
    {
      assert items[i..][1..] == items[i + 1..];
      var item := items[i];
      match item {
        case PNum(v) =>
          stack := stack + [Finite(v)];
        case POp(op) =>
          if |stack| < 2 {
            return Err(InsufficientOperands);
          }
          var b := stack[|stack| - 1];
          var a := stack[|stack| - 2];
          var res := ApplyOperator(a, b, op, pow);
          if res.Err? {
            return Err(res.error);
          }
          stack := stack[..|stack| - 2] + [res.value];
        case POpen =>
      }
      i := i + 1;
    }
    assert items[i..] == [];
    if |stack| != 1 {
      return Err(Malformed);
    }
    r := Ok(stack[0]);
  }

  function NumCount(items: seq<PItem>): nat {
    if items == [] then 0 else (if items[0].PNum? then 1 else 0) + NumCount(items[1..])
  }

  function OpCount(items: seq<PItem>): nat {
    if items == [] then 0 else (if items[0].POp? then 1 else 0) + OpCount(items[1..])
  }

  /** Every number adds one value and every operator removes one. */
  lemma {:induction false} StackHeight(stack: seq<Num>, items: seq<PItem>, pow: (real, real) -> Num)
    ensures RunFrom(stack, items, pow).Ok? ==>
      |RunFrom(stack, items, pow).value| == |stack| + NumCount(items) - OpCount(items)
    decreases |items|
  {
    if items != [] {
      var s := Step(stack, items[0], pow);
      if s.Ok? {
        StackHeight(s.value, items[1..], pow);
      }
    }
  }

  /** A successful evaluation consumed exactly one more number than
    * operators. */
  lemma RunPostfixCounts(items: seq<PItem>, pow: (real, real) -> Num)
    ensures RunPostfix(items, pow).Ok? ==> NumCount(items) == OpCount(items) + 1
  {
    StackHeight([], items, pow);
  }

  /** Every operator finds two values: the stack height before each operator
    * is at least two. */
  ghost predicate EnoughOperands(h: int, items: seq<PItem>) {
    forall k :: 0 <= k < |items| && items[k].POp? ==>
      h + NumCount(items[..k]) - OpCount(items[..k]) >= 2
  }

  lemma CountsSplit(items: seq<PItem>, k: nat)
    requires 0 < k <= |items|
    ensures NumCount(items[..k]) == (if items[0].PNum? then 1 else 0) + NumCount(items[1..][..k - 1])
    ensures OpCount(items[..k]) == (if items[0].POp? then 1 else 0) + OpCount(items[1..][..k - 1])
  {
    assert items[..k][1..] == items[1..][..k - 1];
  }

  /** Enough operands is exactly what rules out the insufficient-operands
    * error: with them it never occurs, and without them (and with no
    * division that could fail first) it always does. */
  lemma {:induction false} InsufficientOperandsExactly(stack: seq<Num>, items: seq<PItem>, pow: (real, real) -> Num)
    ensures EnoughOperands(|stack|, items) ==> RunFrom(stack, items, pow) != Err(InsufficientOperands)
    ensures !EnoughOperands(|stack|, items) && (forall k :: 0 <= k < |items| ==> items[k] != POp(Divide)) ==>
      RunFrom(stack, items, pow) == Err(InsufficientOperands)
    decreases |items|
  {
    if items != [] {
      var s := Step(stack, items[0], pow);
      var h := |stack|;
      var h' := h + (if items[0].PNum? then 1 else 0) - (if items[0].POp? then 1 else 0);
      assert items[..0] == [];
      // the condition on the rest, shifted by the first item
      assert EnoughOperands(h, items) <==>
        (items[0].POp? ==> h >= 2) && EnoughOperands(h', items[1..]) by {
        forall k | 0 < k <= |items[1..]| {
          CountsSplit(items, k);
        }
        if EnoughOperands(h, items) {
          forall k | 0 <= k < |items[1..]| && items[1..][k].POp?
            ensures h' + NumCount(items[1..][..k]) - OpCount(items[1..][..k]) >= 2
          {
            CountsSplit(items, k + 1);
            assert items[k + 1].POp?;
          }
        }
        if (items[0].POp? ==> h >= 2) && EnoughOperands(h', items[1..]) {
          forall k | 0 <= k < |items| && items[k].POp?
            ensures h + NumCount(items[..k]) - OpCount(items[..k]) >= 2
          {
            if k > 0 {
              CountsSplit(items, k);
              assert items[1..][k - 1].POp?;
            }
          }
        }
      }
      if s.Ok? {
        assert |s.value| == h';
        forall k | 0 <= k < |items[1..]| ensures items[1..][k] == items[k + 1] {}
        InsufficientOperandsExactly(s.value, items[1..], pow);
      }
    }
  }

  // ---------------------------------------------------------------------
  // Postfix of an expression tree
  // ---------------------------------------------------------------------

  /** A fully bracketed arithmetic expression. */
  datatype Expr = Lit(v: real) | Bin(op: Op, left: Expr, right: Expr)

  /** Its postfix form: both operands, then the operator. */
  function PostOrder(e: Expr): seq<PItem> {
    match e
    case Lit(v) => [PNum(v)]
    case Bin(op, l, r) => PostOrder(l) + PostOrder(r) + [POp(op)]
  }

  /** The value of an expression, left operand first. */
  function Eval(e: Expr, pow: (real, real) -> Num): Result<Num, CalcError> {
    match e
    case Lit(v) => Ok(Finite(v))
    case Bin(op, l, r) =>
      match Eval(l, pow)
      case Err(x) => Err(x)
      case Ok(a) =>
        match Eval(r, pow)
        case Err(x) => Err(x)
        case Ok(b) => ApplyOperator(a, b, op, pow)
  }

  lemma {:induction false} RunFromAppendOne(stack: seq<Num>, items: seq<PItem>, x: PItem, pow: (real, real) -> Num)
    ensures RunFrom(stack, items + [x], pow) ==
      match RunFrom(stack, items, pow)
      case Err(e) => Err(e)
      case Ok(s) => Step(s, x, pow)
    decreases |items|
  {
    if items == [] {
      assert items + [x] == [x];
      assert [x][1..] == [];
    } else {
      assert (items + [x])[0] == items[0];
      assert (items + [x])[1..] == items[1..] + [x];
      var s := Step(stack, items[0], pow);
      if s.Ok? {
        RunFromAppendOne(s.value, items[1..], x, pow);
      }
    }
  }

  lemma {:induction false} RunFromConcat(stack: seq<Num>, a: seq<PItem>, b: seq<PItem>, pow: (real, real) -> Num)
    ensures RunFrom(stack, a + b, pow) ==
      match RunFrom(stack, a, pow)
      case Err(e) => Err(e)
      case Ok(s) => RunFrom(s, b, pow)
    decreases |a|
  {
    if a == [] {
      assert a + b == b;
    } else {
      assert (a + b)[0] == a[0];
      assert (a + b)[1..] == a[1..] + b;
      var s := Step(stack, a[0], pow);
      if s.Ok? {
        RunFromConcat(s.value, a[1..], b, pow);
      }
    }
  }

  /** Running an expression's postfix form pushes exactly its value onto
    * whatever stack it starts from, or fails with its error. */
  lemma {:induction false} RunPostOrder(e: Expr, stack: seq<Num>, pow: (real, real) -> Num)
    ensures RunFrom(stack, PostOrder(e), pow) ==
      match Eval(e, pow)
      case Err(x) => Err(x)
      case Ok(v) => Ok(stack + [v])
  {
    match e
    case Lit(v) =>
      assert PostOrder(e)[1..] == [];
    case Bin(op, l, r) =>
      RunFromConcat(stack, PostOrder(l) + PostOrder(r), [POp(op)], pow);
      RunFromConcat(stack, PostOrder(l), PostOrder(r), pow);
      RunPostOrder(l, stack, pow);
      if Eval(l, pow).Ok? {
        var a := Eval(l, pow).value;
        RunPostOrder(r, stack + [a], pow);
        if Eval(r, pow).Ok? {
          var b := Eval(r, pow).value;
          var st := stack + [a] + [b];
          assert st[|st| - 2] == a && st[|st| - 1] == b && st[..|st| - 2] == stack;
          assert [POp(op)][1..] == [];
        }
      }
  }

  /** The stack machine evaluates the postfix form of every expression tree
    * to the tree's value. */
  lemma PostfixOfTree(e: Expr, pow: (real, real) -> Num)
    ensures RunPostfix(PostOrder(e), pow) == Eval(e, pow)
  {
    RunPostOrder(e, [], pow);
  }
}
