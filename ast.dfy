/**
 * The filter-expression syntax tree (ast.h, ast.c): property, unit, interval,
 * file-type and operator enumerations, the mapping of parsed words onto them,
 * and the node constructors.
 */
module Ast {
  import opened Wrappers
  import opened Words

  datatype PropertyId =
    | PropUndefined | PropName | PropIName | PropATime | PropCTime | PropMTime
    | PropSize | PropGroup | PropGroupId | PropUser | PropUserId | PropType

  datatype CompareType = CmpUndefined | CmpEq | CmpLtEq | CmpLt | CmpGtEq | CmpGt

  datatype OperatorType = OpUndefined | OpAnd | OpOr

  datatype UnitType = UnitUndefined | UnitBytes | UnitKB | UnitMB | UnitG

  datatype FileType =
    | FileUndefined | FileRegular | FileDirectory | FilePipe | FileSocket
    | FileBlock | FileCharacter | FileSymlink

  datatype TimeInterval = TimeUndefined | TimeMinutes | TimeHours | TimeDays

  /** File flags tested by -readable, -writable and -executable. */
  datatype FileFlag = FlagReadable | FlagWritable | FlagExecutable

  datatype ValueType = VUndefined | VNumeric | VString | VTime | VSize | VType | VFlag

  datatype NodeType = NodeUndefined | NodeExpression | NodeCondition | NodeValue

  /**
   * A value node. The C union holds a string, an int, or an int pair whose
   * second half is an interval or unit code; each variant keeps the member its
   * value type selects.
   */
  datatype Value =
    | UndefinedValue
    | NumericValue(ivalue: Int32)
    | StringValue(svalue: string)
    | TimeValue(amount: Int32, interval: TimeInterval)
    | SizeValue(amount: Int32, unit: UnitType)
    | TypeValue(ftype: FileType)
    | FlagValue(flag: FileFlag)

  datatype Node =
    | UndefinedNode
    | Expression(first: Node, op: OperatorType, second: Node)
    | Condition(prop: PropertyId, cmp: CompareType, value: Value)
    | ValueNode(v: Value)

  function ValueTypeOf(v: Value): ValueType
  {
    match v
    case UndefinedValue => VUndefined
    case NumericValue(_) => VNumeric
    case StringValue(_) => VString
    case TimeValue(_, _) => VTime
    case SizeValue(_, _) => VSize
    case TypeValue(_) => VType
    case FlagValue(_) => VFlag
  }

  function NodeTypeOf(n: Node): NodeType
  {
    match n
    case UndefinedNode => NodeUndefined
    case Expression(_, _, _) => NodeExpression
    case Condition(_, _, _) => NodeCondition
    case ValueNode(_) => NodeValue
  }

  /** First character of a C string that may be NULL; None for NULL or "". */
  function Head(s: Option<string>): Option<char>
  {
    if s.Some? && |s.value| > 0 then Some(s.value[0]) else None
  }

  /** ast_str_to_interval: decided by the first character only. */
  function StrToInterval(s: Option<string>): (r: TimeInterval)
    ensures r == TimeMinutes <==> Head(s) == Some('m')
    ensures r == TimeHours <==> Head(s) == Some('h')
    ensures r == TimeDays <==> Head(s) == Some('d')
  {
    match Head(s)
    case Some('m') => TimeMinutes
    case Some('h') => TimeHours
    case Some('d') => TimeDays
    case _ => TimeUndefined
  }

  /** The eleven property names in the order ast_str_to_property_id tests them. */
  const PropertyNames: seq<(string, PropertyId)> := [
    ("name", PropName), ("iname", PropIName), ("atime", PropATime), ("ctime", PropCTime),
    ("mtime", PropMTime), ("size", PropSize), ("group", PropGroup), ("gid", PropGroupId),
    ("user", PropUser), ("uid", PropUserId), ("type", PropType)]

  const PropertyNameStrings: seq<string> :=
    ["name", "iname", "atime", "ctime", "mtime", "size", "group", "gid", "user", "uid", "type"]

  /** ast_str_to_property_id: exact string comparison against each name. */
  function StrToPropertyId(s: string): (r: PropertyId)
    ensures r == PropUndefined <==> s !in PropertyNameStrings
    ensures r != PropUndefined ==> (s, r) in PropertyNames
  {
    if s == "name" then PropName
    else if s == "iname" then PropIName
    else if s == "atime" then PropATime
    else if s == "ctime" then PropCTime
    else if s == "mtime" then PropMTime
    else if s == "size" then PropSize
    else if s == "group" then PropGroup
    else if s == "gid" then PropGroupId
    else if s == "user" then PropUser
    else if s == "uid" then PropUserId
    else if s == "type" then PropType
    else PropUndefined
  }

  /** ast_str_to_operator: "and" is AND, every other word is OR. */
  function StrToOperator(s: string): (r: OperatorType)
    ensures r == OpAnd <==> s == "and"
    ensures r != OpAnd ==> r == OpOr
  {
    if s == "and" then OpAnd else OpOr
  }

  /** ast_str_to_unit: decided by the first character; 'K' is not a unit. */
  function StrToUnit(s: Option<string>): (r: UnitType)
    ensures r == UnitBytes <==> Head(s) == Some('b')
    ensures r == UnitKB <==> Head(s) == Some('k')
    ensures r == UnitMB <==> Head(s) in {Some('M'), Some('m')}
    ensures r == UnitG <==> Head(s) in {Some('g'), Some('G')}
  {
    match Head(s)
    case Some('b') => UnitBytes
    case Some('k') => UnitKB
    case Some('M') => UnitMB
    case Some('m') => UnitMB
    case Some('g') => UnitG
    case Some('G') => UnitG
    case _ => UnitUndefined
  }

  /** ast_str_to_type: decided by the first character, find(1)'s -type letters. */
  function StrToType(s: Option<string>): (r: FileType)
    ensures r == FileUndefined <==> Head(s) !in {Some('f'), Some('d'), Some('b'), Some('c'), Some('p'), Some('s'), Some('l')}
    ensures Head(s) == Some('f') ==> r == FileRegular
    ensures Head(s) == Some('d') ==> r == FileDirectory
    ensures Head(s) == Some('b') ==> r == FileBlock
    ensures Head(s) == Some('c') ==> r == FileCharacter
    ensures Head(s) == Some('p') ==> r == FilePipe
    ensures Head(s) == Some('s') ==> r == FileSocket
    ensures Head(s) == Some('l') ==> r == FileSymlink
  {
    match Head(s)
    case Some('f') => FileRegular
    case Some('d') => FileDirectory
    case Some('b') => FileBlock
    case Some('c') => FileCharacter
    case Some('p') => FilePipe
    case Some('s') => FileSocket
    case Some('l') => FileSymlink
    case _ => FileUndefined
  }

  /** The int codes of TimeInterval and UnitType as stored in the second half of a pair. */
  function IntervalOfCode(b: Int32): TimeInterval
  {
    if b == 1 then TimeMinutes else if b == 2 then TimeHours else if b == 3 then TimeDays else TimeUndefined
  }

  function UnitOfCode(b: Int32): UnitType
  {
    if b == 1 then UnitBytes else if b == 2 then UnitKB else if b == 3 then UnitMB else if b == 4 then UnitG
    else UnitUndefined
  }

  function IntervalCode(t: TimeInterval): Int32
  {
    match t
    case TimeUndefined => 0
    case TimeMinutes => 1
    case TimeHours => 2
    case TimeDays => 3
  }

  function UnitCode(u: UnitType): Int32
  {
    match u
    case UnitUndefined => 0
    case UnitBytes => 1
    case UnitKB => 2
    case UnitMB => 3
    case UnitG => 4
  }

  /** Node constructors (ast.c). */
  function NewStr(s: string): (r: Node)
    ensures NodeTypeOf(r) == NodeValue && ValueTypeOf(r.v) == VString && r.v.svalue == s
  {
    ValueNode(StringValue(s))
  }

  function NewInt(i: Int32): (r: Node)
    ensures NodeTypeOf(r) == NodeValue && ValueTypeOf(r.v) == VNumeric && r.v.ivalue == i
  {
    ValueNode(NumericValue(i))
  }

  function NewType(t: FileType): (r: Node)
    ensures NodeTypeOf(r) == NodeValue && ValueTypeOf(r.v) == VType && r.v.ftype == t
  {
    ValueNode(TypeValue(t))
  }

  /** ast_value_node_new_int_pair, for the two value types that carry a pair. */
  function NewIntPair(vtype: ValueType, a: Int32, b: Int32): (r: Node)
    requires vtype == VTime || vtype == VSize
    ensures NodeTypeOf(r) == NodeValue && ValueTypeOf(r.v) == vtype && r.v.amount == a
    ensures vtype == VTime ==> IntervalCode(r.v.interval) == b || (b !in {1, 2, 3} && r.v.interval == TimeUndefined)
    ensures vtype == VSize ==> UnitCode(r.v.unit) == b || (b !in {1, 2, 3, 4} && r.v.unit == UnitUndefined)
  {
    if vtype == VTime then ValueNode(TimeValue(a, IntervalOfCode(b)))
    else ValueNode(SizeValue(a, UnitOfCode(b)))
  }

  function NewCond(prop: PropertyId, cmp: CompareType, value: Value): (r: Node)
    ensures NodeTypeOf(r) == NodeCondition && r.prop == prop && r.cmp == cmp && r.value == value
  {
    Condition(prop, cmp, value)
  }

  function NewExpr(first: Node, op: OperatorType, second: Node): (r: Node)
    ensures NodeTypeOf(r) == NodeExpression && r.first == first && r.op == op && r.second == second
  {
    Expression(first, op, second)
  }

  /** Every unit word used on the command line maps to the unit it spells. */
  lemma UnitWords()
    ensures forall w :: w in ["b", "byte", "bytes"] ==> StrToUnit(Some(w)) == UnitBytes
    ensures forall w :: w in ["k", "kb", "kilobyte", "kilobytes"] ==> StrToUnit(Some(w)) == UnitKB
    ensures forall w :: w in ["M", "m", "mb", "megabyte", "megabytes"] ==> StrToUnit(Some(w)) == UnitMB
    ensures forall w :: w in ["G", "g", "gb", "gigabyte", "gigabytes"] ==> StrToUnit(Some(w)) == UnitG
    ensures StrToUnit(Some("K")) == UnitUndefined && StrToUnit(None) == UnitUndefined
  {}

  /** Interval words: minutes, hours, days, by their first letter. */
  lemma IntervalWords()
    ensures StrToInterval(Some("minutes")) == TimeMinutes && StrToInterval(Some("hours")) == TimeHours
    ensures StrToInterval(Some("days")) == TimeDays && StrToInterval(None) == TimeUndefined
    ensures StrToInterval(Some("Minutes")) == TimeUndefined
  {}
}
