/**
 * Translation of a filter-expression tree into find(1) arguments
 * (translate.c). The pure functions below say what each node contributes to
 * the argument vector and which errors it reports; the TranslationCtx class
 * performs the same walk while appending to a growable argument vector and
 * recording only the first error, and is proved to produce exactly that.
 */
module Translate {
  import opened Wrappers
  import opened Words
  import opened Ast
  import Decimal

  /** PARSER_MAX_EXPRESSION_LENGTH, the size of the string-argument buffer. */
  const MaxExpressionLength: nat := 512

  /** INT64_MAX / 1024, the largest byte count that can still be scaled by 1024. */
  const MaxScalable: nat := 9007199254740991

  /** The errors _set_error can record; the text of the user-facing ones is given by Message. */
  datatype TranslateError =
    | CannotCompare(typeDesc: string, propName: Option<string>)
    | InvalidOperator(shown: Option<string>)
    | UnsupportedCompare(cmp: CompareType)
    | TimeOverflow
    | SizeOverflow(val: Int32, unitName: string)
    | UnsupportedSize(unit: UnitType)
    | UnsupportedFileType(ftype: FileType)
    | UnsupportedOperator(op: OperatorType)
    | UnsupportedValueType(vtype: ValueType)
    | UnsupportedNodeType(ntype: NodeType)

  /** What translating a node appends, the errors it reports in order, and its success. */
  datatype Out = Out(args: seq<string>, errors: seq<TranslateError>, ok: bool)

  /** The value kinds a property is checked against, with the word used in messages. */
  datatype Kind = KNumeric | KTime | KString | KSize | KFileType

  function TypeDesc(k: Kind): string
  {
    match k
    case KNumeric => "numeric"
    case KTime => "time"
    case KString => "string"
    case KSize => "size"
    case KFileType => "filetype"
  }

  /** _property_to_str; None is the NULL returned for an undefined property. */
  function PropertyToStr(p: PropertyId): (r: Option<string>)
    ensures r.None? <==> p == PropUndefined
    ensures r.Some? ==> StrToPropertyId(r.value) == p
  {
    match p
    case PropUndefined => None
    case PropName => Some("name")
    case PropIName => Some("iname")
    case PropATime => Some("atime")
    case PropCTime => Some("ctime")
    case PropMTime => Some("mtime")
    case PropSize => Some("size")
    case PropGroup => Some("group")
    case PropGroupId => Some("gid")
    case PropUser => Some("user")
    case PropUserId => Some("uid")
    case PropType => Some("type")
  }

  /** printf's rendering of a "%s" argument, with glibc's text for NULL. */
  function ShowStr(s: Option<string>): string
  {
    if s.Some? then s.value else "(null)"
  }

  /** The text of the validation and overflow messages. */
  function Message(e: TranslateError): string
  {
    match e
    case CannotCompare(desc, name) => "Cannot compare " + desc + " value to property \"" + ShowStr(name) + "\"."
    case InvalidOperator(shown) => "Invalid operator for property \"" + ShowStr(shown) + "\"."
    case TimeOverflow => "_append_time_cond:: critical error => integer overflow"
    case SizeOverflow(val, unitName) =>
      "_append_size_cond:: integer overflow, couldn't convert " + Decimal.IntToString(val) + unitName + " to bytes."
    case _ => "critical error"
  }

  predicate IsTimeProperty(p: PropertyId)
  {
    p == PropATime || p == PropCTime || p == PropMTime
  }

  /** The _property_supports_* family. */
  predicate Supports(k: Kind, p: PropertyId)
  {
    match k
    case KNumeric => IsTimeProperty(p) || p == PropSize || p == PropGroupId || p == PropUserId
    case KTime => IsTimeProperty(p)
    case KString => p == PropName || p == PropIName || p == PropGroup || p == PropUser
    case KSize => p == PropSize
    case KFileType => p == PropType
  }

  /** _property_supports_numeric_operators: properties that accept <, <=, >, >=. */
  predicate SupportsNumericOperators(p: PropertyId)
  {
    IsTimeProperty(p) || p == PropSize
  }

  /** _property_to_arg: the find test for a property; time properties use -Xtime for days, -Xmin otherwise. */
  function PropertyToArg(p: PropertyId, interval: TimeInterval): (r: string)
    requires p != PropUndefined
    ensures IsTimeProperty(p) ==> r == "-" + PropertyToStr(p).value[..1] + (if interval == TimeDays then "time" else "min")
    ensures !IsTimeProperty(p) ==> r == "-" + PropertyToStr(p).value
  {
    match p
    case PropName => "-name"
    case PropIName => "-iname"
    case PropATime => if interval == TimeDays then "-atime" else "-amin"
    case PropCTime => if interval == TimeDays then "-ctime" else "-cmin"
    case PropMTime => if interval == TimeDays then "-mtime" else "-mmin"
    case PropGroup => "-group"
    case PropGroupId => "-gid"
    case PropUser => "-user"
    case PropUserId => "-uid"
    case PropSize => "-size"
    case PropType => "-type"
  }

  /** _flag_to_arg. */
  function FlagToArg(f: FileFlag): string
  {
    match f
    case FlagReadable => "-readable"
    case FlagWritable => "-writable"
    case FlagExecutable => "-executable"
  }

  /**
   * _test_property: a property must support the value kind, and any operator
   * other than '=' needs a property with numeric operators. The second message
   * names the property (see CheckPropertyAsWritten for the source's text).
   */
  function CheckProperty(p: PropertyId, cmp: CompareType, k: Kind): (r: Option<TranslateError>)
    ensures r.None? <==> Supports(k, p) && (cmp == CmpEq || SupportsNumericOperators(p))
    ensures !Supports(k, p) ==> r == Some(CannotCompare(TypeDesc(k), PropertyToStr(p)))
    ensures Supports(k, p) && r.Some? ==> r == Some(InvalidOperator(PropertyToStr(p)))
  {
    if !Supports(k, p) then Some(CannotCompare(TypeDesc(k), PropertyToStr(p)))
    else if cmp != CmpEq && !SupportsNumericOperators(p) then Some(InvalidOperator(PropertyToStr(p)))
    else None
  }

  /**
   * _test_property as written: the "Invalid operator" message is formatted with
   * the value-type word as its only %s argument, so it shows that word.
   */
  function CheckPropertyAsWritten(p: PropertyId, cmp: CompareType, k: Kind): (r: Option<TranslateError>)
    ensures r.None? <==> CheckProperty(p, cmp, k).None?
    ensures r.Some? && r.value.InvalidOperator? ==> r.value.shown == Some(TypeDesc(k))
  {
    if !Supports(k, p) then Some(CannotCompare(TypeDesc(k), PropertyToStr(p)))
    else if cmp != CmpEq && !SupportsNumericOperators(p) then Some(InvalidOperator(Some(TypeDesc(k))))
    else None
  }

  function LParen(quote: bool): string { if quote then "\\(" else "(" }

  function RParen(quote: bool): string { if quote then "\\)" else ")" }

  /** _append_numeric_cond_arg: the arguments of a numeric test; None for an unsupported operator. */
  function NumericCondArgs(arg: string, cmp: CompareType, val: int, suffix: string, quote: bool): (r: Option<seq<string>>)
    ensures r.None? <==> cmp == CmpUndefined
    ensures r.Some? ==> |r.value| == (if cmp in {CmpLtEq, CmpGtEq} then 7 else 2)
  {
    var n := Decimal.IntToString(val) + suffix;
    match cmp
    case CmpLtEq => Some([LParen(quote), arg, n, "-o", arg, "-" + n, RParen(quote)])
    case CmpGtEq => Some([LParen(quote), arg, n, "-o", arg, "+" + n, RParen(quote)])
    case CmpEq => Some([arg, n])
    case CmpLt => Some([arg, "-" + n])
    case CmpGt => Some([arg, "+" + n])
    case CmpUndefined => None
  }

  function NumericCondOut(arg: string, cmp: CompareType, val: int, suffix: string, quote: bool): Out
  {
    match NumericCondArgs(arg, cmp, val, suffix, quote)
    case Some(a) => Out(a, [], true)
    case None => Out([], [UnsupportedCompare(cmp)], false)
  }

  /** Hours to minutes with the overflow check the source intends (the product taken in 64 bits). */
  function HoursToMinutes(val: Int32): (r: Option<Int32>)
    ensures r.Some? <==> Int32Min <= val * 60 <= Int32Max
    ensures r.Some? ==> r.value == val * 60
  {
    if Int32Min <= val * 60 <= Int32Max then Some(val * 60) else None
  }

  /**
   * Hours to minutes as written: `int64_t val64 = val * 60` multiplies in int,
   * so the product wraps before it is widened and the range check sees a value
   * that is always in range.
   */
  function HoursToMinutesAsWritten(val: Int32): Option<int>
  {
    var val64: int := Wrap32(val * 60);
    if val64 > Int32Max || val64 < Int32Min then None else Some(val64)
  }

  /** _append_time_cond. */
  function TimeCondOut(p: PropertyId, cmp: CompareType, val: Int32, interval: TimeInterval, quote: bool): Out
    requires p != PropUndefined
  {
    if interval == TimeHours then
      match HoursToMinutes(val)
      case None => Out([], [TimeOverflow], false)
      case Some(m) => NumericCondOut(PropertyToArg(p, interval), cmp, m, "", quote)
    else
      NumericCondOut(PropertyToArg(p, interval), cmp, val, "", quote)
  }

  /** How often a size is multiplied by 1024, and the unit's name in messages. */
  function UnitScale(u: UnitType): Option<(nat, string)>
  {
    match u
    case UnitBytes => Some((0, "bytes"))
    case UnitKB => Some((1, "K"))
    case UnitMB => Some((2, "M"))
    case UnitG => Some((3, "G"))
    case UnitUndefined => None
  }

  function Pow1024(n: nat): nat
  {
    if n == 0 then 1 else 1024 * Pow1024(n - 1)
  }

  /**
   * The byte count _append_size_cond arrives at and whether it reported an
   * overflow. `uint64_t bytes = val` wraps a negative size to val + 2^64, which
   * exceeds INT64_MAX/1024 and stops the scaling at once.
   */
  function ScaledSize(val: Int32, loops: nat): (nat, bool)
    requires loops <= 3
  {
    if val >= 0 then (val * Pow1024(loops), false) else (val + Two64, loops > 0)
  }

  /** The scaling loop of _append_size_cond. */
  method ConvertSize(val: Int32, loops: nat) returns (bytes: nat, overflow: bool)
    requires loops <= 3
    ensures (bytes, overflow) == ScaledSize(val, loops)
    ensures bytes < Two64
  {
    bytes := if val >= 0 then val else val + Two64;
    overflow := false;
    var i := 0;
    while i < loops
      invariant 0 <= i <= loops
      invariant !overflow ==> bytes == (if val >= 0 then val * Pow1024(i) else val + Two64)
      invariant !overflow ==> val >= 0 || i == 0
      invariant overflow ==> val < 0 && bytes == val + Two64 && loops > 0
      invariant val >= 0 ==> !overflow && bytes <= 0x7FFF_FFFF * Pow1024(i)
    {
      if bytes > MaxScalable {
        overflow := true;
        break;
      }
      bytes := bytes * 1024;
      i := i + 1;
    }
  }

  /** _append_size_cond. */
  function SizeCondOut(cmp: CompareType, val: Int32, unit: UnitType, quote: bool): Out
  {
    match UnitScale(unit)
    case None => Out([], [UnsupportedSize(unit)], false)
    case Some((loops, name)) =>
      var (bytes, overflow) := ScaledSize(val, loops);
      var o := NumericCondOut(PropertyToArg(PropSize, TimeUndefined), cmp, ToInt64(bytes), "c", quote);
      Out(o.args, (if overflow then [SizeOverflow(val, name)] else []) + o.errors, o.ok)
  }

  /** The -type letter of a file type. */
  function TypeLetter(t: FileType): Option<string>
  {
    match t
    case FileRegular => Some("f")
    case FileDirectory => Some("d")
    case FilePipe => Some("p")
    case FileSocket => Some("s")
    case FileBlock => Some("b")
    case FileCharacter => Some("c")
    case FileSymlink => Some("l")
    case FileUndefined => None
  }

  /** _append_type_cond. */
  function TypeCondOut(t: FileType): Out
  {
    match TypeLetter(t)
    case Some(letter) => Out(["-type", letter], [], true)
    case None => Out([], [UnsupportedFileType(t)], false)
  }

  /** The string argument: quoted with snprintf into a 512-byte buffer, or copied. */
  function StringArg(val: string, quote: bool): (r: string)
    ensures quote && |val| + 2 < MaxExpressionLength ==> r == "\"" + val + "\""
    ensures !quote && |val| < MaxExpressionLength ==> r == val
    ensures |r| <= MaxExpressionLength
  {
    if quote then
      var q := "\"" + val + "\"";
      if |q| < MaxExpressionLength then q else q[..MaxExpressionLength - 1]
    else if |val| < MaxExpressionLength then val
    else val[..MaxExpressionLength]
  }

  /** _process_condition: check the property against the value kind, then emit the test. */
  function ConditionOut(p: PropertyId, cmp: CompareType, v: Value, quote: bool): Out
  {
    match v
    case NumericValue(i) =>
      var e := CheckProperty(p, cmp, KNumeric);
      if e.Some? then Out([], [e.value], false)
      else if IsTimeProperty(p) then TimeCondOut(p, cmp, i, TimeMinutes, quote)
      else if p == PropSize then SizeCondOut(cmp, i, UnitBytes, quote)
      else NumericCondOut(PropertyToArg(p, TimeUndefined), cmp, i, "", quote)
    case TimeValue(a, interval) =>
      var e := CheckProperty(p, cmp, KTime);
      if e.Some? then Out([], [e.value], false)
      else TimeCondOut(p, cmp, a, interval, quote)
    case StringValue(s) =>
      var e := CheckProperty(p, cmp, KString);
      if e.Some? then Out([], [e.value], false)
      else Out([PropertyToArg(p, TimeUndefined), StringArg(s, quote)], [], true)
    case SizeValue(a, unit) =>
      var e := CheckProperty(p, cmp, KSize);
      if e.Some? then Out([], [e.value], false)
      else SizeCondOut(cmp, a, unit, quote)
    case TypeValue(t) =>
      var e := CheckProperty(p, cmp, KFileType);
      if e.Some? then Out([], [e.value], false)
      else TypeCondOut(t)
    case _ => Out([], [UnsupportedValueType(ValueTypeOf(v))], false)
  }

  /** _open_parenthese: an OR expression directly below an AND is parenthesised. */
  predicate OpenParen(op: OperatorType, child: Node)
  {
    op == OpAnd && child.Expression? && child.op == OpOr
  }

  /** A child's output, preceded by "(" when it is opened and followed by ")" when it also succeeded. */
  function Wrapped(o: Out, open: bool, quote: bool): (r: Out)
    ensures r.errors == o.errors && r.ok == o.ok
    ensures |r.args| == |o.args| + (if open then 1 else 0) + (if open && o.ok then 1 else 0)
  {
    Out((if open then [LParen(quote)] else []) + o.args + (if open && o.ok then [RParen(quote)] else []), o.errors, o.ok)
  }

  function Join(op: OperatorType): string
  {
    if op == OpAnd then "-a" else "-o"
  }

  /** What _process_node appends and reports for a tree. */
  function TranslateNode(n: Node, quote: bool): Out
    decreases n, 1
  {
    match n
    case Expression(_, _, _) => ExpressionOut(n, quote)
    case Condition(p, cmp, v) => ConditionOut(p, cmp, v, quote)
    case ValueNode(FlagValue(f)) => Out([FlagToArg(f)], [], true)
    case _ => Out([], [UnsupportedNodeType(NodeTypeOf(n))], false)
  }

  /**
   * What _process_expression appends and reports: an unsupported operator is
   * reported but does not stop the walk; a failing first operand does.
   */
  function ExpressionOut(n: Node, quote: bool): Out
    requires n.Expression?
    decreases n, 0
  {
    var e0 := if n.op != OpAnd && n.op != OpOr then [UnsupportedOperator(n.op)] else [];
    var c1 := Wrapped(TranslateNode(n.first, quote), OpenParen(n.op, n.first), quote);
    if !c1.ok then Out(c1.args, e0 + c1.errors, false)
    else
      var c2 := Wrapped(TranslateNode(n.second, quote), OpenParen(n.op, n.second), quote);
      Out(c1.args + [Join(n.op)] + c2.args, e0 + c1.errors + c2.errors, c2.ok)
  }

  /** The error slot after reporting errs: only the first error is ever kept. */
  function FirstError(current: Option<TranslateError>, errs: seq<TranslateError>): (r: Option<TranslateError>)
    ensures current.Some? ==> r == current
    ensures current.None? ==> (r.None? <==> errs == [])
    ensures current.None? && errs != [] ==> r == Some(errs[0])
  {
    if current.Some? then current else if errs == [] then None else Some(errs[0])
  }

  lemma FirstErrorConcat(current: Option<TranslateError>, a: seq<TranslateError>, b: seq<TranslateError>)
    ensures FirstError(FirstError(current, a), b) == FirstError(current, a + b)
  {
    if current.None? && a != [] {
      assert (a + b)[0] == a[0];
    }
  }

  /** Doubling a power of two up to 2^63 in a 64-bit size_t wraps exactly at 2^63. */
  lemma DoubleWraps(m: nat)
    requires 1 <= m <= Two63
    ensures (m * 2) % Two64 < m <==> m == Two63
    ensures m < Two63 ==> (m * 2) % Two64 == m * 2
  {
    if m < Two63 {
      assert m * 2 < Two64;
    } else {
      assert m * 2 == Two64;
    }
  }

  /**
   * TranslationCtx: the growing argument vector (argv/argc/msize), the first
   * error message, and the quote flag.
   */
  class TranslationCtx {
    var argv: seq<string>
    var msize: nat
    var err: Option<TranslateError>
    var quote: bool
    ghost var logSize: nat

    ghost predicate Valid()
      reads this
    {
      3 <= logSize <= 63 && msize == Pow2(logSize) && msize <= Two63 && |argv| <= msize
    }

    /** _translation_ctx_init: capacity 8, no arguments, no error. */
    constructor (quote: bool)
      ensures Valid() && argv == [] && msize == 8 && err == None && this.quote == quote
    {
      argv := [];
      msize := 8;
      err := None;
      this.quote := quote;
      logSize := 3;
    }

    /**
     * _translation_ctx_append_arg: when full, the capacity doubles; the doubling
     * fails only when size_t would wrap, which needs 2^63 arguments.
     */
    method AppendArg(a: string) returns (ok: bool)
      requires Valid()
      modifies this
      ensures Valid() && err == old(err) && quote == old(quote)
      ensures ok <==> old(|argv|) < Two63
      ensures argv == if ok then old(argv) + [a] else old(argv)
      ensures old(|argv|) < old(msize) ==> msize == old(msize)
      ensures ok && old(|argv|) >= old(msize) ==> msize == 2 * old(msize)
    {
      if |argv| >= msize {
        DoubleWraps(msize);
        var newSize := (msize * 2) % Two64;
        if newSize < msize {
          return false;
        }
        Pow2Double(logSize);
        msize := newSize;
        logSize := logSize + 1;
      }
      argv := argv + [a];
      ok := true;
    }

    /** _translation_ctx_append_args: appends in order until an append fails. */
    method AppendArgs(args: seq<string>) returns (ok: bool)
      requires Valid()
      modifies this
      ensures Valid() && err == old(err) && quote == old(quote)
      ensures ok <==> old(|argv|) + |args| <= Two63
      ensures ok ==> argv == old(argv) + args
      ensures !ok ==> argv == old(argv) + args[..Two63 - old(|argv|)]
    {
      ok := true;
      var i := 0;
      while i < |args| && ok
        invariant 0 <= i <= |args|
        invariant Valid() && err == old(err) && quote == old(quote)
        invariant ok ==> argv == old(argv) + args[..i] && old(|argv|) + i <= Two63
        invariant !ok ==> old(|argv|) + i - 1 == Two63 && i >= 1 && argv == old(argv) + args[..i - 1]
        decreases |args| - i
      {
        ok := AppendArg(args[i]);
        i := i + 1;
      }
      if !ok {
        assert args[..Two63 - old(|argv|)] == args[..i - 1];
      }
    }

    /** _set_error: a message is recorded only if none is set yet. */
    method SetError(e: TranslateError)
      modifies this
      ensures err == FirstError(old(err), [e])
      ensures argv == old(argv) && msize == old(msize) && quote == old(quote) && logSize == old(logSize)
    {
      if err.None? {
        err := Some(e);
      }
    }

    /** Appends what an Out describes: its errors first, then its arguments. */
    method Emit(o: Out) returns (ok: bool)
      requires Valid() && |argv| + |o.args| <= Two63
      modifies this
      ensures Valid() && quote == old(quote)
      ensures argv == old(argv) + o.args && err == FirstError(old(err), o.errors) && ok == o.ok
    {
      var i := 0;
      while i < |o.errors|
        invariant 0 <= i <= |o.errors|
        invariant Valid() && quote == old(quote) && argv == old(argv)
        invariant err == FirstError(old(err), o.errors[..i])
      {
        SetError(o.errors[i]);
        FirstErrorConcat(old(err), o.errors[..i], [o.errors[i]]);
        assert o.errors[..i] + [o.errors[i]] == o.errors[..i + 1];
        i := i + 1;
      }
      assert o.errors[..i] == o.errors;
      var appended := AppendArgs(o.args);
      ok := o.ok;
    }

    /** _append_numeric_cond_arg. */
    method AppendNumericCondArg(arg: string, cmp: CompareType, val: int, suffix: string) returns (ok: bool)
      requires Valid() && |argv| + |NumericCondOut(arg, cmp, val, suffix, quote).args| <= Two63
      modifies this
      ensures Valid() && quote == old(quote)
      ensures var o := NumericCondOut(arg, cmp, val, suffix, old(quote));
        argv == old(argv) + o.args && err == FirstError(old(err), o.errors) && ok == o.ok
    {
      var lparen, rparen := LParen(quote), RParen(quote);
      var n := Decimal.IntToString(val) + suffix;
      match cmp {
        case CmpLtEq =>
          ok := AppendArgs([lparen, arg, n, "-o", arg, "-" + n, rparen]);
        case CmpGtEq =>
          ok := AppendArgs([lparen, arg, n, "-o", arg, "+" + n, rparen]);
        case CmpEq =>
          ok := AppendArgs([arg, n]);
        case CmpLt =>
          ok := AppendArgs([arg, "-" + n]);
        case CmpGt =>
          ok := AppendArgs([arg, "+" + n]);
        case CmpUndefined =>
          SetError(UnsupportedCompare(cmp));
          ok := false;
      }
    }

    /** _append_time_cond (with the overflow check taken on the 64-bit product). */
    method AppendTimeCond(p: PropertyId, cmp: CompareType, val: Int32, interval: TimeInterval) returns (ok: bool)
      requires p != PropUndefined
      requires Valid() && |argv| + |TimeCondOut(p, cmp, val, interval, quote).args| <= Two63
      modifies this
      ensures Valid() && quote == old(quote)
      ensures var o := TimeCondOut(p, cmp, val, interval, old(quote));
        argv == old(argv) + o.args && err == FirstError(old(err), o.errors) && ok == o.ok
    {
      var v := val;
      ok := true;
      if interval == TimeHours {
        var val64 := val * 60;
        if val64 > Int32Max || val64 < Int32Min {
          SetError(TimeOverflow);
          ok := false;
        } else {
          v := val64;
        }
      }
      if ok {
        ok := AppendNumericCondArg(PropertyToArg(p, interval), cmp, v, "");
      }
    }

    /** _append_size_cond. */
    method AppendSizeCond(cmp: CompareType, val: Int32, unit: UnitType) returns (ok: bool)
      requires Valid() && |argv| + |SizeCondOut(cmp, val, unit, quote).args| <= Two63
      modifies this
      ensures Valid() && quote == old(quote)
      ensures var o := SizeCondOut(cmp, val, unit, old(quote));
        argv == old(argv) + o.args && err == FirstError(old(err), o.errors) && ok == o.ok
    {
      var scale := UnitScale(unit);
      if scale.None? {
        SetError(UnsupportedSize(unit));
        return false;
      }
      var (loops, name) := scale.value;
      var bytes, overflow := ConvertSize(val, loops);
      if overflow {
        SetError(SizeOverflow(val, name));
      }
      ghost var mid := err;
      ok := AppendNumericCondArg("-size", cmp, ToInt64(bytes), "c");
      FirstErrorConcat(old(err), if overflow then [SizeOverflow(val, name)] else [],
        NumericCondOut("-size", cmp, ToInt64(bytes), "c", quote).errors);
    }

    /** The second half of _process_condition: the property accepts the value's kind. */
    method AppendCheckedCondition(p: PropertyId, cmp: CompareType, v: Value) returns (ok: bool)
      requires v.NumericValue? || v.TimeValue? || v.StringValue? || v.SizeValue? || v.TypeValue?
      requires v.NumericValue? ==> CheckProperty(p, cmp, KNumeric).None?
      requires v.TimeValue? ==> CheckProperty(p, cmp, KTime).None?
      requires v.StringValue? ==> CheckProperty(p, cmp, KString).None?
      requires v.SizeValue? ==> CheckProperty(p, cmp, KSize).None?
      requires v.TypeValue? ==> CheckProperty(p, cmp, KFileType).None?
      requires Valid() && |argv| + |ConditionOut(p, cmp, v, quote).args| <= Two63
      modifies this
      ensures Valid() && quote == old(quote)
      ensures var o := ConditionOut(p, cmp, v, old(quote));
        argv == old(argv) + o.args && err == FirstError(old(err), o.errors) && ok == o.ok
    {
      hide Pow2;
      match v {
        case NumericValue(i) =>
          if IsTimeProperty(p) {
            ok := AppendTimeCond(p, cmp, i, TimeMinutes);
          } else if p == PropSize {
            ok := AppendSizeCond(cmp, i, UnitBytes);
          } else {
            ok := AppendNumericCondArg(PropertyToArg(p, TimeUndefined), cmp, i, "");
          }
        case TimeValue(a, interval) =>
          ok := AppendTimeCond(p, cmp, a, interval);
        case StringValue(s) =>
          ok := AppendArgs([PropertyToArg(p, TimeUndefined), StringArg(s, quote)]);
        case SizeValue(a, unit) =>
          ok := AppendSizeCond(cmp, a, unit);
        case TypeValue(t) =>
          var letter := TypeLetter(t);
          if letter.None? {
            SetError(UnsupportedFileType(t));
            ok := false;
          } else {
            ok := AppendArgs(["-type", letter.value]);
          }
      }
    }

    /** _process_condition. */
    method ProcessCondition(n: Node) returns (ok: bool)
      requires n.Condition?
      requires Valid() && |argv| + |TranslateNode(n, quote).args| <= Two63
      modifies this
      ensures Valid() && quote == old(quote)
      ensures var o := TranslateNode(n, old(quote));
        argv == old(argv) + o.args && err == FirstError(old(err), o.errors) && ok == o.ok
    {
      hide Pow2;
      var p, cmp, v := n.prop, n.cmp, n.value;
      var kind: Kind;
      match v {
        case NumericValue(_) => kind := KNumeric;
        case TimeValue(_, _) => kind := KTime;
        case StringValue(_) => kind := KString;
        case SizeValue(_, _) => kind := KSize;
        case TypeValue(_) => kind := KFileType;
        case _ =>
          SetError(UnsupportedValueType(ValueTypeOf(v)));
          return false;
      }
      var e := CheckProperty(p, cmp, kind);
      if e.Some? {
        SetError(e.value);
        return false;
      }
      ok := AppendCheckedCondition(p, cmp, v);
    }

    /** One operand of _process_expression: "(" if it is opened, the operand, and ")" if it succeeded. */
    method ProcessOperand(op: OperatorType, child: Node) returns (ok: bool)
      requires Valid() && |argv| + |Wrapped(TranslateNode(child, quote), OpenParen(op, child), quote).args| <= Two63
      modifies this
      ensures Valid() && quote == old(quote)
      ensures var o := Wrapped(TranslateNode(child, old(quote)), OpenParen(op, child), old(quote));
        argv == old(argv) + o.args && err == FirstError(old(err), o.errors) && ok == o.ok
      decreases child, 3
    {
      hide TranslateNode;
      ghost var o := TranslateNode(child, quote);
      ghost var lp := if OpenParen(op, child) then [LParen(quote)] else [];
      var open := OpenParen(op, child);
      if open {
        var appended := AppendArg(LParen(quote));
      }
      assert argv == old(argv) + lp && err == old(err);
      ok := ProcessNode(child);
      assert argv == old(argv) + lp + o.args;
      if ok && open {
        var appended := AppendArg(RParen(quote));
      }
    }

    /**
     * _process_expression. The join argument cannot fail to append here, as the
     * precondition leaves room for every argument, so its goto is not taken.
     */
    method ProcessExpression(n: Node) returns (ok: bool)
      requires n.Expression?
      requires Valid() && |argv| + |ExpressionOut(n, quote).args| <= Two63
      modifies this
      ensures Valid() && quote == old(quote)
      ensures var o := ExpressionOut(n, old(quote));
        argv == old(argv) + o.args && err == FirstError(old(err), o.errors) && ok == o.ok
      decreases n, 1
    {
      hide TranslateNode, Pow2, Wrapped, FirstError;
      ghost var c1 := Wrapped(TranslateNode(n.first, quote), OpenParen(n.op, n.first), quote);
      ghost var c2 := Wrapped(TranslateNode(n.second, quote), OpenParen(n.op, n.second), quote);
      ghost var e0 := if n.op != OpAnd && n.op != OpOr then [UnsupportedOperator(n.op)] else [];
      ok := false;
      if n.op != OpAnd && n.op != OpOr {
        SetError(UnsupportedOperator(n.op));
      }
      var ok1 := ProcessOperand(n.op, n.first);
      FirstErrorConcat(old(err), e0, c1.errors);
      if ok1 {
        ok := ProcessJoinedOperand(n);
        FirstErrorConcat(old(err), e0 + c1.errors, c2.errors);
      }
    }

    /** The rest of _process_expression once the first operand succeeded: the join, then the second operand. */
    method ProcessJoinedOperand(n: Node) returns (ok: bool)
      requires n.Expression?
      requires Valid() && |argv| + 1 + |Wrapped(TranslateNode(n.second, quote), OpenParen(n.op, n.second), quote).args| <= Two63
      modifies this
      ensures Valid() && quote == old(quote)
      ensures var o := Wrapped(TranslateNode(n.second, old(quote)), OpenParen(n.op, n.second), old(quote));
        argv == old(argv) + [Join(n.op)] + o.args && err == FirstError(old(err), o.errors) && ok == o.ok
      decreases n, 0
    {
      hide TranslateNode;
      var joined := AppendArg(Join(n.op));
      ok := ProcessOperand(n.op, n.second);
    }

    /** _process_node: expressions, conditions and flag values; anything else is an error. */
    method ProcessNode(n: Node) returns (ok: bool)
      requires Valid() && |argv| + |TranslateNode(n, quote).args| <= Two63
      modifies this
      ensures Valid() && quote == old(quote)
      ensures var o := TranslateNode(n, old(quote));
        argv == old(argv) + o.args && err == FirstError(old(err), o.errors) && ok == o.ok
      decreases n, 2
    {
      match n {
        case Expression(_, _, _) =>
          ok := ProcessExpression(n);
        case Condition(_, _, _) =>
          ok := ProcessCondition(n);
        case ValueNode(FlagValue(f)) =>
          ok := AppendArg(FlagToArg(f));
        case _ =>
          SetError(UnsupportedNodeType(NodeTypeOf(n)));
          ok := false;
      }
    }
  }

  /**
   * translate(): the argument vector, the first error and the success flag of
   * translating a whole tree are those TranslateNode describes.
   */
  method Translate(root: Node, quote: bool) returns (argv: seq<string>, ok: bool, err: Option<TranslateError>)
    requires |TranslateNode(root, quote).args| <= Two63
    ensures argv == TranslateNode(root, quote).args
    ensures ok == TranslateNode(root, quote).ok
    ensures err == FirstError(None, TranslateNode(root, quote).errors)
  {
    var ctx := new TranslationCtx(quote);
    ok := ctx.ProcessNode(root);
    argv, err := ctx.argv, ctx.err;
  }
}

/**
 * What the emitted arguments mean to find(1), and the properties of the
 * translation stated over its specification functions.
 */
module TranslateFacts {
  import opened Wrappers
  import opened Words
  import opened Ast
  import opened Translate
  import Decimal

  /** find's reading of a numeric argument with a unit suffix: "+N" is more than N, "-N" less than N, "N" exactly N. */
  function FindNumericTest(s: string, suffix: string, x: int): Option<bool>
  {
    if |s| < |suffix| || s[|s| - |suffix|..] != suffix then None
    else
      var body := s[..|s| - |suffix|];
      if |body| > 1 && body[0] == '+' && Decimal.AllDigits(body[1..]) then Some(x > Decimal.DigitsValue(body[1..]))
      else if |body| > 1 && body[0] == '-' && Decimal.AllDigits(body[1..]) then Some(x < Decimal.DigitsValue(body[1..]))
      else if |body| > 0 && Decimal.AllDigits(body) then Some(x == Decimal.DigitsValue(body))
      else None
  }

  /** find's reading of "test N" or of "( test N -o test N' )" for a value x of the tested attribute. */
  function FindNumericCondition(args: seq<string>, test: string, suffix: string, quote: bool, x: int): Option<bool>
  {
    if |args| == 2 && args[0] == test then FindNumericTest(args[1], suffix, x)
    else if |args| == 7 && args[0] == LParen(quote) && args[1] == test && args[3] == "-o"
      && args[4] == test && args[6] == RParen(quote)
    then
      match (FindNumericTest(args[2], suffix, x), FindNumericTest(args[5], suffix, x))
      case (Some(a), Some(b)) => Some(a || b)
      case _ => None
    else None
  }

  /** The comparison a condition node asks for. */
  predicate CompareHolds(cmp: CompareType, x: int, val: int)
  {
    match cmp
    case CmpEq => x == val
    case CmpLtEq => x <= val
    case CmpLt => x < val
    case CmpGtEq => x >= val
    case CmpGt => x > val
    case CmpUndefined => false
  }

  /** The numeric argument printed for val, with a sign prefix and the unit suffix, reads back as the intended test. */
  lemma NumberWithSign(val: nat, sign: string, suffix: string, x: int)
    requires sign in ["", "+", "-"]
    ensures FindNumericTest(sign + (Decimal.IntToString(val) + suffix), suffix, x)
      == Some(if sign == "+" then x > val else if sign == "-" then x < val else x == val)
  {
    var d := Decimal.NatToString(val);
    assert Decimal.IntToString(val) == d;
    Decimal.NatToStringShape(val);
    Decimal.NatRoundTrip(val);
    var s := sign + (d + suffix);
    assert s[|s| - |suffix|..] == suffix;
    var body := s[..|s| - |suffix|];
    assert body == sign + d;
    if sign == "" {
      assert body == d && Decimal.IsDigit(body[0]);
    } else {
      assert body[0] == sign[0] && body[1..] == d;
    }
  }

  /**
   * The arguments _append_numeric_cond_arg emits for a non-negative value test,
   * read by find, hold exactly when the attribute compares to the value as the
   * node's operator says; '<=' and '>=' become an equality or-ed with a strict test.
   */
  lemma NumericCondMeaning(arg: string, cmp: CompareType, val: nat, suffix: string, quote: bool, x: int)
    requires cmp != CmpUndefined
    ensures FindNumericCondition(NumericCondArgs(arg, cmp, val, suffix, quote).value, arg, suffix, quote, x)
      == Some(CompareHolds(cmp, x, val))
  {
    hide FindNumericTest;
    var n := Decimal.IntToString(val) + suffix;
    NumberWithSign(val, "", suffix, x);
    assert "" + n == n;
    NumberWithSign(val, "+", suffix, x);
    NumberWithSign(val, "-", suffix, x);
    var args := NumericCondArgs(arg, cmp, val, suffix, quote).value;
    match cmp {
      case CmpLtEq => assert args == [LParen(quote), arg, n, "-o", arg, "-" + n, RParen(quote)];
      case CmpGtEq => assert args == [LParen(quote), arg, n, "-o", arg, "+" + n, RParen(quote)];
      case CmpEq => assert args == [arg, n];
      case CmpLt => assert args == [arg, "-" + n];
      case CmpGt => assert args == [arg, "+" + n];
    }
  }

  /**
   * A non-negative size literal in unit u becomes a byte-exact "-size Nc" test
   * with N = val * 1024^k for k = 0, 1, 2, 3 (bytes, K, M, G), and no overflow
   * is reported: an int32 times 2^30 stays below INT64_MAX.
   */
  lemma SizeCondMeaning(cmp: CompareType, val: Int32, unit: UnitType, quote: bool)
    requires val >= 0 && unit != UnitUndefined
    ensures var loops := UnitScale(unit).value.0;
      SizeCondOut(cmp, val, unit, quote) == NumericCondOut("-size", cmp, val * Pow1024(loops), "c", quote)
  {
    var loops := UnitScale(unit).value.0;
    assert Pow1024(loops) <= 0x4000_0000 by {
      assert Pow1024(1) == 1024;
      assert Pow1024(2) == 1024 * 1024;
      assert Pow1024(3) == 1024 * 1024 * 1024;
    }
    assert val * Pow1024(loops) <= 0x7FFF_FFFF * 0x4000_0000;
  }

  /**
   * A negative size in K, M or G reports the overflow error, yet the test is
   * still emitted, with the original negative number, and translation succeeds.
   */
  lemma NegativeSizeReportsButEmits(cmp: CompareType, val: Int32, unit: UnitType, quote: bool)
    requires val < 0 && unit in {UnitKB, UnitMB, UnitG} && cmp != CmpUndefined
    ensures var o := SizeCondOut(cmp, val, unit, quote);
      o.ok && |o.errors| == 1 && o.errors[0].SizeOverflow?
      && o.args == NumericCondArgs("-size", cmp, val, "c", quote).value
  {
  }

  /** Hours are emitted as -Xmin tests on the number of minutes when the product fits in an int32. */
  lemma HoursBecomeMinutes(p: PropertyId, cmp: CompareType, val: Int32, quote: bool)
    requires IsTimeProperty(p) && Int32Min <= val * 60 <= Int32Max
    ensures TimeCondOut(p, cmp, val, TimeHours, quote) == NumericCondOut(PropertyToArg(p, TimeMinutes), cmp, val * 60, "", quote)
  {
  }

  /** The range check of _append_time_cond as written never fires: the product has already wrapped to an int. */
  lemma HoursCheckAsWrittenNeverFires(val: Int32)
    ensures HoursToMinutesAsWritten(val).Some?
  {
  }

  /** 40000000 hours: the source emits -1894967296 minutes; the intended check rejects the value. */
  lemma HoursOverflowExample()
    ensures HoursToMinutesAsWritten(40000000) == Some(-1894967296)
    ensures HoursToMinutes(40000000).None?
  {
  }

  /** "gid > 5": the source's message names the value type instead of the property. */
  lemma InvalidOperatorMessageExample()
    ensures Message(CheckPropertyAsWritten(PropGroupId, CmpGt, KNumeric).value) == "Invalid operator for property \"numeric\"."
    ensures Message(CheckProperty(PropGroupId, CmpGt, KNumeric).value) == "Invalid operator for property \"gid\"."
  {
  }

  /** A translation that fails always leaves an error message behind. */
  lemma {:induction false} FailureLeavesError(n: Node, quote: bool)
    ensures !TranslateNode(n, quote).ok ==> TranslateNode(n, quote).errors != []
    decreases n
  {
    match n {
      case Expression(first, op, second) =>
        FailureLeavesError(first, quote);
        FailureLeavesError(second, quote);
      case _ =>
    }
  }

  /** An operand that is an OR expression below an AND is enclosed in "(" ... ")" when it succeeds. */
  lemma OrBelowAndIsParenthesised(first: Node, second: Node, quote: bool)
    requires second.Expression? && second.op == OpOr
    requires TranslateNode(first, quote).ok && TranslateNode(second, quote).ok && !OpenParen(OpAnd, first)
    ensures TranslateNode(Expression(first, OpAnd, second), quote).args
      == TranslateNode(first, quote).args + ["-a", LParen(quote)] + TranslateNode(second, quote).args + [RParen(quote)]
  {
    hide ConditionOut;
    var o1 := TranslateNode(first, quote);
    var o2 := TranslateNode(second, quote);
    assert ExpressionOut(Expression(first, OpAnd, second), quote).args == o1.args + ["-a"] + ([LParen(quote)] + o2.args + [RParen(quote)]);
  }

  /** Every test a successful expression emits is joined by "-a" or "-o"; no parentheses are added below OR. */
  lemma OrJoinsPlainly(first: Node, second: Node, quote: bool)
    requires TranslateNode(first, quote).ok
    ensures TranslateNode(Expression(first, OpOr, second), quote).args
      == TranslateNode(first, quote).args + ["-o"] + TranslateNode(second, quote).args
    ensures TranslateNode(Expression(first, OpOr, second), quote).errors
      == TranslateNode(first, quote).errors + TranslateNode(second, quote).errors
  {
    hide ConditionOut;
  }
}
