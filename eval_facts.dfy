/**
 * Properties of the filter-function evaluator: short-circuit AND and OR, the
 * meaning of comparisons, argument collection, and the argument bound.
 */
module EvalFacts {
  import opened Wrappers
  import opened Words
  import Ast
  import opened Extension
  import opened Eval

  /** AND yields TRUE exactly when both operands do; a first result other than TRUE is returned as it is. */
  lemma AndMeaning(a: ENode, b: ENode, ctx: Context)
    ensures EvalNode(ExprNode(a, OpAnd, b), ctx) == ResultTrue <==>
      EvalNode(a, ctx) == ResultTrue && EvalNode(b, ctx) == ResultTrue
    ensures EvalNode(a, ctx) != ResultTrue ==> EvalNode(ExprNode(a, OpAnd, b), ctx) == EvalNode(a, ctx)
  {
  }

  /** OR yields FALSE exactly when both operands do; a first result other than FALSE is returned as it is. */
  lemma OrMeaning(a: ENode, b: ENode, ctx: Context)
    ensures EvalNode(ExprNode(a, OpOr, b), ctx) == ResultFalse <==>
      EvalNode(a, ctx) == ResultFalse && EvalNode(b, ctx) == ResultFalse
    ensures EvalNode(a, ctx) != ResultFalse ==> EvalNode(ExprNode(a, OpOr, b), ctx) == EvalNode(a, ctx)
  {
  }

  /** The second operand does not matter when the first decides: it is never evaluated. */
  lemma ShortCircuit(a: ENode, b: ENode, b': ENode, ctx: Context)
    ensures EvalNode(a, ctx) != ResultTrue ==>
      EvalNode(ExprNode(a, OpAnd, b), ctx) == EvalNode(ExprNode(a, OpAnd, b'), ctx)
    ensures EvalNode(a, ctx) != ResultFalse ==>
      EvalNode(ExprNode(a, OpOr, b), ctx) == EvalNode(ExprNode(a, OpOr, b'), ctx)
  {
  }

  /** An aborted operand aborts the expression when it is evaluated, whatever the other operand. */
  lemma AbortPropagates(a: ENode, b: ENode, ctx: Context)
    requires EvalNode(a, ctx) == ResultAborted
    ensures EvalNode(ExprNode(a, OpAnd, b), ctx) == ResultAborted
    ensures EvalNode(ExprNode(a, OpOr, b), ctx) == ResultAborted
    ensures EvalNode(ExprNode(a, OpComma, b), ctx) == ResultAborted
  {
  }

  /** Three-valued AND and OR are associative, so the grouping of a chain does not change its result. */
  lemma Associative(a: ENode, b: ENode, c: ENode, ctx: Context)
    ensures EvalNode(ExprNode(ExprNode(a, OpAnd, b), OpAnd, c), ctx) == EvalNode(ExprNode(a, OpAnd, ExprNode(b, OpAnd, c)), ctx)
    ensures EvalNode(ExprNode(ExprNode(a, OpOr, b), OpOr, c), ctx) == EvalNode(ExprNode(a, OpOr, ExprNode(b, OpOr, c)), ctx)
  {
    var x, y := EvalNode(a, ctx), EvalNode(b, ctx);
    assert EvalNode(ExprNode(a, OpAnd, b), ctx) == if x == ResultTrue then y else x;
    assert EvalNode(ExprNode(b, OpAnd, c), ctx) == if y == ResultTrue then EvalNode(c, ctx) else y;
    assert EvalNode(ExprNode(a, OpOr, b), ctx) == if x == ResultFalse then y else x;
    assert EvalNode(ExprNode(b, OpOr, c), ctx) == if y == ResultFalse then EvalNode(c, ctx) else y;
  }

  /** The sign of a - b. */
  function Sign(d: int): int
  {
    if d < 0 then -1 else if d == 0 then 0 else 1
  }

  /** The signs of a - b each operator admits. */
  function Admits(cmp: Ast.CompareType): set<int>
  {
    match cmp
    case CmpEq => {0}
    case CmpLtEq => {-1, 0}
    case CmpLt => {-1}
    case CmpGtEq => {0, 1}
    case CmpGt => {1}
    case CmpUndefined => {}
  }

  /**
   * A comparison of two readable integers holds as the operator says: TRUE
   * exactly when the sign of the difference is one the operator admits, and an
   * undefined operator aborts.
   */
  lemma CompareMeaning(l: ENode, cmp: Ast.CompareType, r: ENode, ctx: Context, a: Int32, b: Int32)
    requires GetInt(l, ctx) == Some(a) && GetInt(r, ctx) == Some(b) && r != TrueNode
    ensures cmp == Ast.CmpUndefined ==> EvalNode(CompareNode(l, cmp, r), ctx) == ResultAborted
    ensures cmp != Ast.CmpUndefined ==>
      (EvalNode(CompareNode(l, cmp, r), ctx) == ResultTrue <==> Sign(a - b) in Admits(cmp))
    ensures cmp != Ast.CmpUndefined ==> EvalNode(CompareNode(l, cmp, r), ctx) != ResultAborted
  {
  }

  /** '=' against TRUE is TRUE exactly when the left integer is non-zero. */
  lemma CompareWithTrue(l: ENode, ctx: Context, a: Int32)
    requires GetInt(l, ctx) == Some(a)
    ensures EvalNode(CompareNode(l, Ast.CmpEq, TrueNode), ctx) == (if a != 0 then ResultTrue else ResultFalse)
  {
  }

  /** A string literal cannot be an operand of a comparison. */
  lemma StringOperandAborts(s: string, cmp: Ast.CompareType, other: ENode, ctx: Context)
    ensures EvalNode(CompareNode(ValueLeaf(Ast.StringValue(s)), cmp, other), ctx) == ResultAborted
    ensures GetInt(other, ctx).Some? ==>
      EvalNode(CompareNode(other, cmp, ValueLeaf(Ast.StringValue(s))), ctx) == ResultAborted
  {
  }

  /** A NULL node is FALSE, and nodes that are neither expressions nor comparisons abort. */
  lemma OtherNodes(ctx: Context, v: Ast.Value, f: ENode)
    requires f.FuncNode?
    ensures EvalNode(Null, ctx) == ResultFalse
    ensures EvalNode(TrueNode, ctx) == ResultAborted && EvalNode(OtherNode, ctx) == ResultAborted
    ensures EvalNode(ValueLeaf(v), ctx) == ResultAborted && EvalNode(f, ctx) == ResultAborted
  {
  }

  /** A call has a value only if its signature tested OK against the first module exporting its name. */
  lemma CallNeedsSignature(f: ENode, ctx: Context)
    requires f.FuncNode? && FuncCall(f, ctx).Some?
    ensures CollectArgs(f.args, [], ctx, true).Some?
    ensures CallbackStatus(ctx.modules, Some(f.name), Types(CollectArgs(f.args, [], ctx, true).value)) == StatusOk
    ensures FirstProvider(ctx.modules, f.name).Some?
  {
  }

  /** An argument list of integer literals chained by commas, as the evaluator walks it. */
  function Chain(vals: seq<Int32>): (n: ENode)
    ensures vals == [] <==> n == Null
  {
    if vals == [] then Null
    else ExprNode(ValueLeaf(Ast.NumericValue(vals[0])), OpComma, Chain(vals[1..]))
  }

  function IntSlots(vals: seq<Int32>): (r: seq<Slot>)
    ensures |r| == |vals| && forall i :: 0 <= i < |vals| ==> r[i] == IntSlot(vals[i])
  {
    seq(|vals|, i requires 0 <= i < |vals| => IntSlot(vals[i]))
  }

  /** Literal arguments fill the slots in order; the bounded walk accepts them while they fit. */
  lemma {:induction false} ChainArgs(vals: seq<Int32>, acc: seq<Slot>, ctx: Context, bounded: bool)
    requires !bounded || |acc| + |vals| <= FnStackSize
    ensures CollectArgs(Chain(vals), acc, ctx, bounded) == Some(acc + IntSlots(vals))
    decreases |vals|
  {
    if vals == [] {
      assert acc + IntSlots(vals) == acc;
    } else {
      ChainArgs(vals[1..], acc + [IntSlot(vals[0])], ctx, bounded);
      assert acc + [IntSlot(vals[0])] + IntSlots(vals[1..]) == acc + IntSlots(vals);
    }
  }

  /** The bounded walk never fills more than FN_STACK_SIZE slots. */
  lemma {:induction false} ArgsFit(iter: ENode, acc: seq<Slot>, ctx: Context)
    requires |acc| <= FnStackSize && CollectArgs(iter, acc, ctx, true).Some?
    ensures |CollectArgs(iter, acc, ctx, true).value| <= FnStackSize
    decreases iter
  {
    if iter != Null && |acc| < FnStackSize && iter.ExprNode? {
      var first := iter.first;
      if first.FuncNode? {
        ArgsFit(iter.second, acc + [IntSlot(FuncCall(first, ctx).value)], ctx);
      } else {
        ArgsFit(iter.second, acc + [ValueSlot(first.value).value], ctx);
      }
    }
  }

  /**
   * Thirty-three literal arguments: as written, the walk goes on past the 32
   * allocated slots and fills a 33rd; bounded, the call fails instead.
   */
  lemma StackOverflowAsWritten(ctx: Context)
    ensures var vals := seq(33, i => 1 as Int32);
      CollectArgsAsWritten(Chain(vals), ctx).Some?
      && |CollectArgsAsWritten(Chain(vals), ctx).value| == FnStackSize + 1
      && CollectArgs(Chain(vals), [], ctx, true).None?
  {
    var vals := seq(33, i => 1 as Int32);
    ChainArgs(vals, [], ctx, false);
    ChainArgs(vals[..32], [], ctx, true);
    BoundedChainFails(vals, [], ctx);
  }

  /** A chain with more literals than slots left fails under the bound. */
  lemma {:induction false} BoundedChainFails(vals: seq<Int32>, acc: seq<Slot>, ctx: Context)
    requires |acc| <= FnStackSize < |acc| + |vals|
    ensures CollectArgs(Chain(vals), acc, ctx, true).None?
    decreases |vals|
  {
    if |acc| < FnStackSize {
      BoundedChainFails(vals[1..], acc + [IntSlot(vals[0])], ctx);
    }
  }
}
