/**
 * The filter-function evaluator of eval.c. Its tree has nodes the search
 * expression does not: function calls, the TRUE literal and the comma operator
 * that chains call arguments. Evaluation is three-valued; AND and OR short-cut;
 * comparisons read both sides as integers; a call is checked against the
 * extension registry before it is invoked.
 */
module Eval {
  import opened Wrappers
  import opened Words
  import Ast
  import opened Extension

  /** EvalResult. */
  datatype EvalResult = ResultTrue | ResultFalse | ResultAborted

  datatype ExprOp = OpAnd | OpOr | OpComma | OpOther

  /** The evaluator's nodes; Null is a NULL child pointer. */
  datatype ENode =
    | Null
    | ExprNode(first: ENode, op: ExprOp, second: ENode)
    | CompareNode(left: ENode, cmp: Ast.CompareType, right: ENode)
    | ValueLeaf(value: Ast.Value)
    | FuncNode(name: string, args: ENode)
    | TrueNode
    | OtherNode

  /** The evaluation context: the file being tested and the loaded extensions. */
  datatype Context = Context(filename: string, modules: seq<ExtModule>, backend: Backend)

  /** FN_STACK_SIZE: the number of argument slots allocated for a call. */
  const FnStackSize: nat := 32

  function Size(n: ENode): nat
  {
    match n
    case Null => 0
    case ExprNode(a, _, b) => 1 + Size(a) + Size(b)
    case CompareNode(a, _, b) => 1 + Size(a) + Size(b)
    case FuncNode(_, a) => 1 + Size(a)
    case _ => 1
  }

  /** The type set_integer or set_string gives a slot. */
  function SlotType(s: Slot): ArgType
  {
    if s.IntSlot? then ArgInteger else ArgString
  }

  function Types(slots: seq<Slot>): (r: seq<ArgType>)
    ensures |r| == |slots| && forall i :: 0 <= i < |slots| ==> r[i] == SlotType(slots[i])
  {
    seq(|slots|, i requires 0 <= i < |slots| => SlotType(slots[i]))
  }

  /** _eval_set_fn_arg_from_value_node: numbers and strings become arguments, other values fail. */
  function ValueSlot(v: Ast.Value): (r: Option<Slot>)
    ensures r.Some? <==> v.NumericValue? || v.StringValue?
    ensures v.NumericValue? ==> r == Some(IntSlot(v.ivalue))
    ensures v.StringValue? ==> r == Some(StrSlot(v.svalue))
  {
    match v
    case NumericValue(i) => Some(IntSlot(i))
    case StringValue(s) => Some(StrSlot(s))
    case _ => None
  }

  /** _eval_node: NULL is FALSE, expressions and comparisons are evaluated, anything else aborts. */
  function EvalNode(n: ENode, ctx: Context): (r: EvalResult)
    ensures n == Null ==> r == ResultFalse
    ensures r != ResultAborted ==> n == Null || n.ExprNode? || n.CompareNode?
    decreases n, 2
  {
    match n
    case Null => ResultFalse
    case ExprNode(_, _, _) => EvalExpression(n, ctx)
    case CompareNode(_, _, _) => EvalCompare(n, ctx)
    case _ => ResultAborted
  }

  /**
   * _eval_expression_node: AND evaluates its second operand only after a TRUE
   * first, OR only after a FALSE first; any other operator aborts.
   */
  function EvalExpression(n: ENode, ctx: Context): (r: EvalResult)
    requires n.ExprNode?
    ensures n.op == OpAnd ==>
      (r == ResultTrue <==> EvalNode(n.first, ctx) == ResultTrue && EvalNode(n.second, ctx) == ResultTrue)
    ensures n.op == OpOr ==>
      (r == ResultFalse <==> EvalNode(n.first, ctx) == ResultFalse && EvalNode(n.second, ctx) == ResultFalse)
    ensures n.op != OpAnd && n.op != OpOr ==> r == ResultAborted
    decreases n, 1
  {
    if n.op == OpAnd then
      var r := EvalNode(n.first, ctx);
      if r == ResultTrue then EvalNode(n.second, ctx) else r
    else if n.op == OpOr then
      var r := EvalNode(n.first, ctx);
      if r == ResultFalse then EvalNode(n.second, ctx) else r
    else ResultAborted
  }

  /** _eval_node_get_int: a call's result or a numeric literal; anything else cannot be read. */
  function GetInt(n: ENode, ctx: Context): (r: Option<Int32>)
    ensures r.Some? ==> n.FuncNode? || (n.ValueLeaf? && n.value.NumericValue?)
    ensures n.ValueLeaf? && n.value.NumericValue? ==> r == Some(n.value.ivalue)
    decreases n, 2
  {
    match n
    case FuncNode(_, _) => FuncCall(n, ctx)
    case ValueLeaf(v) => if v.NumericValue? then Some(v.ivalue) else None
    case _ => None
  }

  /** The result of the switch in _eval_compare_node for two integers. */
  function CompareInts(cmp: Ast.CompareType, a: int, b: int): (r: EvalResult)
    ensures r == ResultAborted <==> cmp == Ast.CmpUndefined
    ensures a == b ==> (r == ResultTrue <==> cmp == Ast.CmpEq || cmp == Ast.CmpLtEq || cmp == Ast.CmpGtEq)
    ensures a < b ==> (r == ResultTrue <==> cmp == Ast.CmpLt || cmp == Ast.CmpLtEq)
    ensures a > b ==> (r == ResultTrue <==> cmp == Ast.CmpGt || cmp == Ast.CmpGtEq)
  {
    match cmp
    case CmpEq => if a == b then ResultTrue else ResultFalse
    case CmpLtEq => if a <= b then ResultTrue else ResultFalse
    case CmpLt => if a < b then ResultTrue else ResultFalse
    case CmpGtEq => if a >= b then ResultTrue else ResultFalse
    case CmpGt => if a > b then ResultTrue else ResultFalse
    case CmpUndefined => ResultAborted
  }

  /**
   * _eval_compare_node: aborted unless the left side reads as an integer; '='
   * against TRUE tests the left side for non-zero; otherwise the right side
   * must read as an integer too.
   */
  function EvalCompare(n: ENode, ctx: Context): (r: EvalResult)
    requires n.CompareNode?
    ensures r != ResultAborted ==> GetInt(n.left, ctx).Some?
    ensures n.cmp == Ast.CmpUndefined ==> r == ResultAborted
    decreases n, 1
  {
    match GetInt(n.left, ctx)
    case None => ResultAborted
    case Some(a) =>
      if n.cmp == Ast.CmpEq && n.right == TrueNode then
        (if a == 0 then ResultFalse else ResultTrue)
      else
        match GetInt(n.right, ctx)
        case None => ResultAborted
        case Some(b) => CompareInts(n.cmp, a, b)
  }

  /**
   * The argument loop of _eval_func_node, from the chain iter onwards with the
   * slots acc already filled: a comma node contributes its first child (a call's
   * result or a literal) and continues with its second, a literal ends the
   * chain, and anything else fails. When bounded, an argument with no slot left
   * fails the call.
   */
  function CollectArgs(iter: ENode, acc: seq<Slot>, ctx: Context, bounded: bool): (r: Option<seq<Slot>>)
    ensures r.Some? ==> acc <= r.value
    ensures r.Some? && iter != Null ==> |r.value| > |acc|
    ensures r.Some? ==> forall i :: |acc| <= i < |r.value| ==> !r.value[i].Empty?
    decreases iter, 0
  {
    if iter == Null then Some(acc)
    else if bounded && |acc| >= FnStackSize then None
    else match iter
      case ExprNode(first, op, second) =>
        if op != OpComma then None
        else if first.FuncNode? then
          (match FuncCall(first, ctx)
           case None => None
           case Some(v) => CollectArgs(second, acc + [IntSlot(v)], ctx, bounded))
        else if first.ValueLeaf? then
          (match ValueSlot(first.value)
           case None => None
           case Some(s) => CollectArgs(second, acc + [s], ctx, bounded))
        else None
      case ValueLeaf(v) =>
        (match ValueSlot(v)
         case None => None
         case Some(s) => Some(acc + [s]))
      case _ => None
  }

  /**
   * _eval_func_node: the arguments are collected (nested calls first), the
   * signature is tested, and only an OK test leads to the invocation, whose
   * result is the call's value.
   */
  function FuncCall(f: ENode, ctx: Context): (r: Option<Int32>)
    requires f.FuncNode?
    ensures r.Some? ==> CollectArgs(f.args, [], ctx, true).Some? && FirstProvider(ctx.modules, f.name).Some?
    decreases f, 0
  {
    match CollectArgs(f.args, [], ctx, true)
    case None => None
    case Some(slots) =>
      if CallbackStatus(ctx.modules, Some(f.name), Types(slots)) == StatusOk then
        Invoke(ctx.modules, f.name, ctx.filename, slots, ctx.backend).result
      else None
  }

  /** evaluate: the root must not be NULL. */
  function Evaluate(root: ENode, ctx: Context): (r: EvalResult)
    requires root != Null
    ensures r != ResultAborted ==> root.ExprNode? || root.CompareNode?
  {
    EvalNode(root, ctx)
  }

  /**
   * The argument loop of _eval_func_node on the argument vector, nested calls
   * evaluated through FuncCall: the slots it fills and its success are those
   * CollectArgs describes.
   */
  method FuncArgs(fnArgs: ENode, ctx: Context) returns (success: bool, argc: nat, args: CallbackArgs)
    ensures fresh(args.argv) && fresh(args.types) && args.Valid() && argc <= args.argc == FnStackSize
    ensures success <==> CollectArgs(fnArgs, [], ctx, true).Some?
    ensures success ==> CollectArgs(fnArgs, [], ctx, true).value == args.argv[..argc]
    ensures success ==> Types(args.argv[..argc]) == args.types[..argc]
  {
    args := new CallbackArgs(FnStackSize);
    argc := 0;
    success := true;
    var iter := fnArgs;
    while iter != Null && success
      invariant args.Valid() && args.argc == FnStackSize && argc <= FnStackSize
      invariant fresh(args.argv) && fresh(args.types)
      invariant Types(args.argv[..argc]) == args.types[..argc]
      invariant CollectArgs(fnArgs, [], ctx, true) ==
        if success then CollectArgs(iter, args.argv[..argc], ctx, true) else None
      decreases (if success then 1 else 0), Size(iter)
    {
      if argc == FnStackSize {
        success := false;
      } else if iter.ExprNode? {
        if iter.op != OpComma {
          success := false;
        } else if iter.first.FuncNode? {
          var result := FuncCall(iter.first, ctx);
          if result.Some? {
            SetSlot(args, argc, IntSlot(result.value));
            argc := argc + 1;
            iter := iter.second;
          } else {
            success := false;
          }
        } else if iter.first.ValueLeaf? {
          var slot := ValueSlot(iter.first.value);
          if slot.Some? {
            SetSlot(args, argc, slot.value);
            argc := argc + 1;
            iter := iter.second;
          } else {
            success := false;
          }
        } else {
          success := false;
        }
      } else if iter.ValueLeaf? {
        var slot := ValueSlot(iter.value);
        if slot.Some? {
          SetSlot(args, argc, slot.value);
          argc := argc + 1;
          iter := Null;
        } else {
          success := false;
        }
      } else {
        success := false;
      }
    }
  }

  /** Fills one slot through set_integer or set_string, extending the typed prefix. */
  method SetSlot(args: CallbackArgs, offset: nat, s: Slot)
    requires args.Valid() && offset < args.argc && !s.Empty?
    requires Types(args.argv[..offset]) == args.types[..offset]
    modifies args.argv, args.types
    ensures args.Valid()
    ensures args.argv[..offset + 1] == old(args.argv[..offset]) + [s]
    ensures Types(args.argv[..offset + 1]) == args.types[..offset + 1]
  {
    ghost var before := args.argv[..offset];
    if s.IntSlot? {
      args.SetInteger(offset, s.i);
    } else {
      args.SetString(offset, Some(s.s));
    }
    assert args.argv[..offset] == before;
    assert args.argv[..offset + 1] == before + [s];
  }

  /**
   * The argument loop as written: the FN_STACK_SIZE check only reports, so
   * arguments keep going into slots whatever their number.
   */
  function CollectArgsAsWritten(fnArgs: ENode, ctx: Context): (r: Option<seq<Slot>>)
    ensures CollectArgs(fnArgs, [], ctx, true).Some? ==> r == CollectArgs(fnArgs, [], ctx, true)
    ensures r.Some? && |r.value| <= FnStackSize ==> r == CollectArgs(fnArgs, [], ctx, true)
  {
    BoundOnlyFails(fnArgs, [], ctx);
    CollectArgs(fnArgs, [], ctx, false)
  }

  /**
   * The bound only turns walks into failures: a bounded walk that succeeds is
   * the unbounded one, and an unbounded walk that fits the slots is the bounded one.
   */
  lemma {:induction false} BoundOnlyFails(iter: ENode, acc: seq<Slot>, ctx: Context)
    ensures CollectArgs(iter, acc, ctx, true).Some? ==>
      CollectArgs(iter, acc, ctx, false) == CollectArgs(iter, acc, ctx, true)
    ensures CollectArgs(iter, acc, ctx, false).Some? && |CollectArgs(iter, acc, ctx, false).value| <= FnStackSize ==>
      CollectArgs(iter, acc, ctx, true) == CollectArgs(iter, acc, ctx, false)
    decreases iter
  {
    if iter != Null && iter.ExprNode? && iter.op == OpComma {
      var first := iter.first;
      if first.FuncNode? && FuncCall(first, ctx).Some? {
        BoundOnlyFails(iter.second, acc + [IntSlot(FuncCall(first, ctx).value)], ctx);
      } else if first.ValueLeaf? && ValueSlot(first.value).Some? {
        BoundOnlyFails(iter.second, acc + [ValueSlot(first.value).value], ctx);
      }
    }
  }
}
