/**
 * The test extension of test/extensions/c-test.c as a registry fixture: what
 * its discover function registers, its three callbacks, and how the evaluator
 * runs the calls the test suite writes against it.
 */
module CTest {
  import opened Wrappers
  import opened Words
  import Ast
  import opened Extension
  import opened Eval
  import opened EvalFacts

  /** The registrations discover makes: a name and the declared type codes. */
  const Registrations: seq<(string, seq<int>)> := [
    ("c_name_equals", [StringCode]),
    ("c_add", [IntegerCode, IntegerCode]),
    ("c_sub", [IntegerCode, IntegerCode])
  ]

  /** The callback table after the registrations, each processed as FunctionDiscovered does. */
  function Register(table: map<string, seq<ArgType>>, regs: seq<(string, seq<int>)>): map<string, seq<ArgType>>
    decreases |regs|
  {
    if regs == [] then table
    else
      var (name, codes) := regs[0];
      var next := if DecodeTypes(codes).Some? then table[name := DecodeTypes(codes).value] else table;
      Register(next, regs[1..])
  }

  /** discover registers c_name_equals(string), c_add(integer, integer) and c_sub(integer, integer). */
  lemma CTestCallbacks()
    ensures Register(map[], Registrations) ==
      map["c_name_equals" := [ArgString], "c_add" := [ArgInteger, ArgInteger], "c_sub" := [ArgInteger, ArgInteger]]
  {
    var none: seq<int> := [];
    assert DecodeTypes(none) == Some([]);
    assert [StringCode][1..] == none && [IntegerCode][1..] == none;
    assert DecodeTypes([StringCode]) == Some([ArgString] + []);
    assert DecodeTypes([IntegerCode]) == Some([ArgInteger] + []);
    var two := [IntegerCode, IntegerCode];
    assert two[1..] == [IntegerCode];
    assert [ArgInteger] + [] == [ArgInteger];
    assert DecodeTypes(two[1..]) == Some([ArgInteger]);
    assert DecodeTypes(two) == Some([ArgInteger] + [ArgInteger]);
    assert [ArgInteger] + [ArgInteger] == [ArgInteger, ArgInteger];
    assert [ArgString] + [] == [ArgString];
    var m1 := map["c_name_equals" := [ArgString]];
    var m2 := m1["c_add" := [ArgInteger, ArgInteger]];
    var m3 := m2["c_sub" := [ArgInteger, ArgInteger]];
    var r3 := [("c_sub", two)];
    var r2 := [("c_add", two)] + r3;
    assert Registrations == [("c_name_equals", [StringCode])] + r2;
    assert r3[1..] == [] && r2[1..] == r3 && Registrations[1..] == r2;
    assert Register(m2, r3) == Register(m3, []) == m3;
    assert Register(m1, r2) == Register(m2, r3);
    assert Register(map[], Registrations) == Register(m1, r2);
  }

  /** The signatures as extension_manager_export lists them. */
  lemma CTestSignatures()
    ensures JoinTypes([ArgString]) == "string"
    ensures JoinTypes([ArgInteger, ArgInteger]) == "integer, integer"
  {
    assert [ArgInteger, ArgInteger][1..] == [ArgInteger];
  }

  /** c_name_equals: 1 exactly when the file name equals the argument. */
  function NameEquals(filename: string, arg: string): (r: Int32)
    ensures r in {0, 1} && (r == 1 <==> filename == arg)
  {
    if filename == arg then 1 else 0
  }

  /** c_add: the sum, as a C int. */
  function Add(a: Int32, b: Int32): (r: Int32)
    ensures Int32Min <= a + b <= Int32Max ==> r == a + b
    ensures (r - (a + b)) % Two32 == 0
  {
    Wrap32(a + b)
  }

  /** c_sub: the difference, as a C int. */
  function Sub(a: Int32, b: Int32): (r: Int32)
    ensures Int32Min <= a - b <= Int32Max ==> r == a - b
    ensures (r - (a - b)) % Two32 == 0
  {
    Wrap32(a - b)
  }

  /**
   * The shared-library backend bound to this module: dlsym finds the three
   * symbols, each reading its arguments as the signature declares. Calls
   * whose slots do not match the signature never reach the backend after a
   * successful signature test, and give no result here.
   */
  function Backend(k: nat, name: string, filename: string, argv: seq<Slot>): Option<Int32>
  {
    if name == "c_name_equals" && |argv| >= 1 && argv[0].StrSlot? then Some(NameEquals(filename, argv[0].s))
    else if name == "c_add" && |argv| >= 2 && argv[0].IntSlot? && argv[1].IntSlot? then Some(Add(argv[0].i, argv[1].i))
    else if name == "c_sub" && |argv| >= 2 && argv[0].IntSlot? && argv[1].IntSlot? then Some(Sub(argv[0].i, argv[1].i))
    else None
  }

  const Callbacks: map<string, seq<ArgType>> :=
    map["c_name_equals" := [ArgString], "c_add" := [ArgInteger, ArgInteger], "c_sub" := [ArgInteger, ArgInteger]]

  /** The registry holding only this module. */
  function CTestContext(filename: string): Context
  {
    Context(filename, [ExtModule("c-test.so", Callbacks)], Backend)
  }

  function Call(name: string, vals: seq<Int32>): ENode
  {
    FuncNode(name, Chain(vals))
  }

  function Num(i: Int32): ENode
  {
    ValueLeaf(Ast.NumericValue(i))
  }

  /** A call of c_add or c_sub with two literal arguments yields the sum or difference. */
  lemma {:induction false} ArithmeticCall(filename: string, a: Int32, b: Int32)
    ensures FuncCall(Call("c_add", [a, b]), CTestContext(filename)) == Some(Add(a, b))
    ensures FuncCall(Call("c_sub", [a, b]), CTestContext(filename)) == Some(Sub(a, b))
  {
    var ctx := CTestContext(filename);
    ChainArgs([a, b], [], ctx, true);
    assert IntSlots([a, b]) == [IntSlot(a), IntSlot(b)];
    assert Types([IntSlot(a), IntSlot(b)]) == [ArgInteger, ArgInteger];
    assert FirstProvider(ctx.modules, "c_add") == Some(0);
    assert FirstProvider(ctx.modules, "c_sub") == Some(0);
  }

  /** c_add(-523, 58212)=57689 holds. */
  lemma AddExample(filename: string)
    ensures Evaluate(CompareNode(Call("c_add", [-523, 58212]), Ast.CmpEq, Num(57689)), CTestContext(filename)) == ResultTrue
  {
    ArithmeticCall(filename, -523, 58212);
  }

  /** A comparison of a two-argument c_add or c_sub call with a literal compares the sum or difference. */
  lemma CallComparedWithLiteral(filename: string, add: bool, a: Int32, b: Int32, cmp: Ast.CompareType, c: Int32)
    ensures EvalNode(CompareNode(Call(if add then "c_add" else "c_sub", [a, b]), cmp, Num(c)), CTestContext(filename))
      == CompareInts(cmp, if add then Add(a, b) else Sub(a, b), c)
  {
    ArithmeticCall(filename, a, b);
  }

  /** c_add(913, 37) >= 950 and c_sub(-17, 987) > -1005 holds. */
  lemma AndExample(filename: string)
    ensures Evaluate(ExprNode(
        CompareNode(Call("c_add", [913, 37]), Ast.CmpGtEq, Num(950)),
        OpAnd,
        CompareNode(Call("c_sub", [-17, 987]), Ast.CmpGt, Num(-1005))), CTestContext(filename)) == ResultTrue
  {
    var l := CompareNode(Call("c_add", [913, 37]), Ast.CmpGtEq, Num(950));
    var r := CompareNode(Call("c_sub", [-17, 987]), Ast.CmpGt, Num(-1005));
    CallComparedWithLiteral(filename, true, 913, 37, Ast.CmpGtEq, 950);
    CallComparedWithLiteral(filename, false, -17, 987, Ast.CmpGt, -1005);
    hide EvalCompare, EvalNode;
    AndMeaning(l, r, CTestContext(filename));
  }

  /** c_add(23750235, 523597) = c_sub(24517089, 243257) holds: both sides are 24273832. */
  lemma CallsOnBothSides(filename: string)
    ensures Evaluate(CompareNode(Call("c_add", [23750235, 523597]), Ast.CmpEq, Call("c_sub", [24517089, 243257])),
      CTestContext(filename)) == ResultTrue
  {
    CallsCompared(filename, 23750235, 523597, 24517089, 243257, Ast.CmpEq);
  }

  /** A comparison of a c_add call with a c_sub call compares the sum with the difference. */
  lemma CallsCompared(filename: string, a: Int32, b: Int32, c: Int32, d: Int32, cmp: Ast.CompareType)
    ensures EvalNode(CompareNode(Call("c_add", [a, b]), cmp, Call("c_sub", [c, d])), CTestContext(filename))
      == CompareInts(cmp, Add(a, b), Sub(c, d))
  {
    ArithmeticCall(filename, a, b);
    ArithmeticCall(filename, c, d);
  }

  /** c_add(1, 2, 3) has the wrong number of arguments, so the comparison using it aborts. */
  lemma WrongArityAborts(filename: string, right: ENode)
    ensures Evaluate(CompareNode(Call("c_add", [1, 2, 3]), Ast.CmpGt, right), CTestContext(filename)) == ResultAborted
  {
    var ctx := CTestContext(filename);
    ChainArgs([1, 2, 3], [], ctx, true);
    assert FirstProvider(ctx.modules, "c_add") == Some(0);
    assert |IntSlots([1, 2, 3])| != |Callbacks["c_add"]|;
  }

  /** A function no module exports cannot be called. */
  lemma UnknownFunctionAborts(filename: string, name: string, vals: seq<Int32>, cmp: Ast.CompareType, right: ENode)
    requires name !in Callbacks && |vals| <= FnStackSize
    ensures Evaluate(CompareNode(Call(name, vals), cmp, right), CTestContext(filename)) == ResultAborted
  {
    ChainArgs(vals, [], CTestContext(filename), true);
  }
}
