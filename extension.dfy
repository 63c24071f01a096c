/**
 * The extension registry of extension.c: which files are extension modules,
 * how discovered callbacks are recorded with their argument types, how a call
 * is checked against and dispatched to the first module that exports its name,
 * and the argument vector handed to a backend. The backends themselves
 * (dlopen, CPython) are an abstract function.
 */
module Extension {
  import opened Wrappers
  import opened Words

  /** CallbackArgType. */
  datatype ArgType = ArgUndefined | ArgInteger | ArgString

  /** The integer codes of CallbackArgType a module passes when it registers a callback. */
  const IntegerCode: int := 1
  const StringCode: int := 2

  datatype ModuleType = ModuleUndefined | SharedLib | Python

  /** ExtensionCallbackStatus. */
  datatype Status = StatusOk | StatusNotFound | StatusInvalidSignature

  /** A slot of the argument vector: empty (NULL), a boxed int32 or a string. */
  datatype Slot = Empty | IntSlot(i: Int32) | StrSlot(s: string)

  /** A loaded module: its file name and its callback table, name to argument types. */
  datatype ExtModule = ExtModule(filename: string, callbacks: map<string, seq<ArgType>>)

  /**
   * A backend's invoke: given the index of the module, the callback name, the
   * file name and the arguments, Some(result) when it returns 0, None otherwise.
   */
  type Backend = (nat, string, string, seq<Slot>) -> Option<Int32>

  predicate EndsWith(s: string, suffix: string)
  {
    |suffix| <= |s| && s[|s| - |suffix|..] == suffix
  }

  /**
   * _extension_map_file_extension: a name longer than three characters ending
   * in ".so" is a shared library, one ending in ".py" a Python module when
   * Python support is built in; anything else, and NULL, is undefined.
   */
  function MapFileExtension(filename: Option<string>, withPython: bool): (r: ModuleType)
    ensures r == SharedLib <==> filename.Some? && |filename.value| > 3 && EndsWith(filename.value, ".so")
    ensures r == Python <==> withPython && filename.Some? && |filename.value| > 3 && EndsWith(filename.value, ".py")
  {
    if filename.None? then ModuleUndefined
    else
      var f := filename.value;
      if |f| <= 3 then ModuleUndefined
      else if f[|f| - 3..] == ".so" then SharedLib
      else if withPython && f[|f| - 3..] == ".py" then Python
      else ModuleUndefined
  }

  lemma ModuleFileNames()
    ensures MapFileExtension(Some("c-test.so"), false) == SharedLib
    ensures MapFileExtension(Some(".so"), true) == ModuleUndefined
    ensures MapFileExtension(Some("ext.py"), true) == Python
    ensures MapFileExtension(Some("ext.py"), false) == ModuleUndefined
    ensures MapFileExtension(None, true) == ModuleUndefined
  {
    assert EndsWith("c-test.so", ".so");
    assert EndsWith("ext.py", ".py");
  }

  /** The declared type codes as argument types, or None if one is neither INTEGER nor STRING. */
  function DecodeTypes(codes: seq<int>): (r: Option<seq<ArgType>>)
    ensures r.Some? <==> forall i :: 0 <= i < |codes| ==> codes[i] in {IntegerCode, StringCode}
    ensures r.Some? ==> |r.value| == |codes|
    ensures r.Some? ==> forall i :: 0 <= i < |codes| ==>
      (r.value[i] == ArgInteger <==> codes[i] == IntegerCode) && r.value[i] != ArgUndefined
  {
    if codes == [] then Some([])
    else if codes[0] != IntegerCode && codes[0] != StringCode then None
    else match DecodeTypes(codes[1..]) {
      case None => None
      case Some(rest) =>
        assert forall i :: 1 <= i < |codes| ==> codes[i] == codes[1..][i - 1];
        Some([if codes[0] == IntegerCode then ArgInteger else ArgString] + rest)
    }
  }

  /** The callback table of one module while it is being loaded. */
  class ModuleCallbacks {
    var callbacks: map<string, seq<ArgType>>

    constructor ()
      ensures callbacks == map[]
    {
      callbacks := map[];
    }

    /**
     * _extension_manager_function_discovered: the callback is recorded, replacing
     * one of the same name, only if every declared type is INTEGER or STRING.
     */
    method FunctionDiscovered(name: string, codes: seq<int>)
      requires |codes| < 128
      modifies this
      ensures callbacks == if DecodeTypes(codes).Some? then old(callbacks)[name := DecodeTypes(codes).value] else old(callbacks)
    {
      var types: seq<ArgType> := [];
      var success := true;
      var i := 0;
      while i < |codes| && success
        invariant 0 <= i <= |codes|
        invariant success ==> DecodeTypes(codes[..i]).Some? && types == DecodeTypes(codes[..i]).value
        invariant !success ==> DecodeTypes(codes).None?
        invariant callbacks == old(callbacks)
      {
        assert codes[..i + 1] == codes[..i] + [codes[i]];
        if codes[i] == IntegerCode || codes[i] == StringCode {
          types := types + [if codes[i] == IntegerCode then ArgInteger else ArgString];
          DecodeTypesSnoc(codes[..i], codes[i]);
        } else {
          assert codes[i] !in {IntegerCode, StringCode};
          success := false;
        }
        i := i + 1;
      }
      if success {
        assert codes[..i] == codes;
        assert DecodeTypes(codes).Some? && types == DecodeTypes(codes).value;
        callbacks := callbacks[name := types];
      }
    }
  }

  /** Decoding one more code appends its type. */
  lemma {:induction false} DecodeTypesSnoc(codes: seq<int>, c: int)
    requires DecodeTypes(codes).Some? && c in {IntegerCode, StringCode}
    ensures DecodeTypes(codes + [c]) == Some(DecodeTypes(codes).value + [if c == IntegerCode then ArgInteger else ArgString])
    decreases |codes|
  {
    if codes == [] {
      assert codes + [c] == [c] && [c][1..] == [];
      var x := if c == IntegerCode then ArgInteger else ArgString;
      assert DecodeTypes([c][1..]) == Some([]);
      assert DecodeTypes([c]) == Some([x] + []);
      assert [x] + [] == DecodeTypes(codes).value + [x];
    } else {
      assert (codes + [c])[1..] == codes[1..] + [c];
      assert (codes + [c])[0] == codes[0];
      assert DecodeTypes(codes[1..]).Some?;
      DecodeTypesSnoc(codes[1..], c);
      var h := if codes[0] == IntegerCode then ArgInteger else ArgString;
      var x := if c == IntegerCode then ArgInteger else ArgString;
      assert DecodeTypes(codes).value == [h] + DecodeTypes(codes[1..]).value;
      assert DecodeTypes(codes + [c]).value == [h] + (DecodeTypes(codes[1..]).value + [x]);
      assert [h] + (DecodeTypes(codes[1..]).value + [x]) == ([h] + DecodeTypes(codes[1..]).value) + [x];
    }
  }

  /** The index of the first module, in iteration order, whose table holds name. */
  function FirstProvider(modules: seq<ExtModule>, name: string): (r: Option<nat>)
    ensures r.Some? ==> r.value < |modules| && name in modules[r.value].callbacks
    ensures r.Some? ==> forall j :: 0 <= j < r.value ==> name !in modules[j].callbacks
    ensures r.None? <==> forall j :: 0 <= j < |modules| ==> name !in modules[j].callbacks
  {
    if modules == [] then None
    else if name in modules[0].callbacks then Some(0)
    else match FirstProvider(modules[1..], name) {
      case None => None
      case Some(k) => Some(k + 1)
    }
  }

  /** _extension_manager_find_callback: walks the modules and stops at the first that exports name. */
  method FindCallback(modules: seq<ExtModule>, name: string) returns (r: Option<nat>)
    ensures r == FirstProvider(modules, name)
  {
    var i := 0;
    while i < |modules|
      invariant 0 <= i <= |modules|
      invariant forall j :: 0 <= j < i ==> name !in modules[j].callbacks
    {
      if name in modules[i].callbacks {
        FirstProviderUnique(modules, name, i);
        return Some(i);
      }
      i := i + 1;
    }
    return None;
  }

  /** FirstProvider is pinned down by its contract. */
  lemma FirstProviderUnique(modules: seq<ExtModule>, name: string, k: nat)
    requires k < |modules| && name in modules[k].callbacks
    requires forall j :: 0 <= j < k ==> name !in modules[j].callbacks
    ensures FirstProvider(modules, name) == Some(k)
  {
    assert FirstProvider(modules, name).Some?;
  }

  /**
   * The status extension_manager_test_callback reports: NOT_FOUND if the name is
   * NULL or no module exports it, INVALID_SIGNATURE if the count or any type
   * differs from the first exporter's, OK otherwise.
   */
  function CallbackStatus(modules: seq<ExtModule>, name: Option<string>, types: seq<ArgType>): (r: Status)
    ensures r == StatusNotFound <==> name.None? || FirstProvider(modules, name.value).None?
    ensures r == StatusOk <==> (name.Some? && FirstProvider(modules, name.value).Some? &&
      modules[FirstProvider(modules, name.value).value].callbacks[name.value] == types)
  {
    if name.None? then StatusNotFound
    else match FirstProvider(modules, name.value) {
      case None => StatusNotFound
      case Some(k) => if modules[k].callbacks[name.value] == types then StatusOk else StatusInvalidSignature
    }
  }

  /** extension_manager_test_callback: compares the count, then the types one by one. */
  method TestCallback(modules: seq<ExtModule>, name: Option<string>, types: seq<ArgType>) returns (r: Status)
    ensures r == CallbackStatus(modules, name, types)
  {
    r := StatusNotFound;
    if name.Some? {
      var k := FindCallback(modules, name.value);
      if k.Some? {
        var declared := modules[k.value].callbacks[name.value];
        if |declared| != |types| {
          r := StatusInvalidSignature;
        } else {
          r := StatusOk;
          var i := 0;
          while i < |types|
            invariant 0 <= i <= |types|
            invariant declared[..i] == types[..i]
          {
            if types[i] != declared[i] {
              r := StatusInvalidSignature;
              break;
            }
            i := i + 1;
          }
          assert r == StatusOk ==> declared[..|types|] == types[..|types|];
        }
      }
    }
  }

  /** The outcome of extension_manager_invoke: the status, and the result when it is OK. */
  datatype Invocation = Invocation(status: Status, result: Option<Int32>)

  /**
   * extension_manager_invoke: only the count is checked; the call is OK only
   * when the backend succeeds, and a backend failure is reported as NOT_FOUND.
   */
  function Invoke(modules: seq<ExtModule>, name: string, filename: string, argv: seq<Slot>, backend: Backend): (r: Invocation)
    ensures r.status == StatusOk <==> r.result.Some?
    ensures r.status == StatusInvalidSignature <==> (FirstProvider(modules, name).Some? &&
      |modules[FirstProvider(modules, name).value].callbacks[name]| != |argv|)
    ensures r.status == StatusOk ==> (FirstProvider(modules, name).Some? &&
      r.result == backend(FirstProvider(modules, name).value, name, filename, argv))
    ensures FirstProvider(modules, name).None? ==> r == Invocation(StatusNotFound, None)
  {
    match FirstProvider(modules, name) {
      case None => Invocation(StatusNotFound, None)
      case Some(k) =>
        if |modules[k].callbacks[name]| != |argv| then Invocation(StatusInvalidSignature, None)
        else match backend(k, name, filename, argv) {
          case Some(v) => Invocation(StatusOk, Some(v))
          case None => Invocation(StatusNotFound, None)
        }
    }
  }

  /** A signature test that passes means an invocation with arguments of those types reaches the backend. */
  lemma TestedCallReachesBackend(modules: seq<ExtModule>, name: string, filename: string, argv: seq<Slot>, types: seq<ArgType>, backend: Backend)
    requires CallbackStatus(modules, Some(name), types) == StatusOk && |argv| == |types|
    ensures Invoke(modules, name, filename, argv, backend).status != StatusInvalidSignature
    ensures Invoke(modules, name, filename, argv, backend).result == backend(FirstProvider(modules, name).value, name, filename, argv)
  {
  }

  /** The word extension_manager_export prints for an argument type. */
  function TypeWord(t: ArgType): string
  {
    if t == ArgString then "string" else "integer"
  }

  /** The type words joined by ", ", as a recursive reference definition. */
  function JoinTypes(types: seq<ArgType>): string
  {
    if types == [] then ""
    else if |types| == 1 then TypeWord(types[0])
    else TypeWord(types[0]) + ", " + JoinTypes(types[1..])
  }

  /** Appending a type to a non-empty list adds ", " and its word. */
  lemma {:induction false} JoinTypesSnoc(types: seq<ArgType>, t: ArgType)
    requires types != []
    ensures JoinTypes(types + [t]) == JoinTypes(types) + ", " + TypeWord(t)
    decreases |types|
  {
    hide TypeWord;
    var w := TypeWord(types[0]);
    if |types| == 1 {
      assert (types + [t])[1..] == [t];
      assert JoinTypes(types + [t]) == w + ", " + JoinTypes([t]);
    } else {
      assert (types + [t])[1..] == types[1..] + [t];
      JoinTypesSnoc(types[1..], t);
      calc {
        JoinTypes(types + [t]);
        w + ", " + JoinTypes(types[1..] + [t]);
        w + ", " + (JoinTypes(types[1..]) + ", " + TypeWord(t));
        (w + ", " + JoinTypes(types[1..])) + ", " + TypeWord(t);
      }
    }
  }

  /**
   * The line extension_manager_export writes for one callback: a tab, the name,
   * and the type words in parentheses, with ", " after every word but the last.
   */
  method SignatureLine(name: string, types: seq<ArgType>) returns (line: string)
    ensures line == "\t" + name + "(" + JoinTypes(types) + ")\n"
  {
    var list := "";
    var i := 0;
    while i < |types|
      invariant 0 <= i <= |types|
      invariant i < |types| ==> list == (if i == 0 then "" else JoinTypes(types[..i]) + ", ")
      invariant i == |types| ==> list == JoinTypes(types[..i])
    {
      list := list + TypeWord(types[i]);
      if i < |types| - 1 {
        list := list + ", ";
      }
      if i > 0 {
        assert types[..i + 1] == types[..i] + [types[i]];
        JoinTypesSnoc(types[..i], types[i]);
      } else {
        assert types[..1] == [types[0]];
      }
      i := i + 1;
    }
    assert types[..|types|] == types;
    line := "\t" + name + "(" + list + ")\n";
  }

  /** The argument vector of a callback (ExtensionCallbackArgs). */
  class CallbackArgs {
    const argc: nat
    var argv: array<Slot>
    var types: array<ArgType>

    ghost predicate Valid()
      reads this
    {
      argv.Length == argc && types.Length == argc
    }

    /** extension_callback_args_new: argc slots, all empty and of undefined type. */
    constructor (n: nat)
      ensures Valid() && argc == n && fresh(argv) && fresh(types)
      ensures forall i :: 0 <= i < n ==> argv[i] == Empty && types[i] == ArgUndefined
    {
      argc := n;
      argv := new Slot[n](_ => Empty);
      types := new ArgType[n](_ => ArgUndefined);
    }

    /** extension_callback_args_set_integer: slot offset holds the value and is typed INTEGER; nothing else changes. */
    method SetInteger(offset: nat, value: Int32)
      requires Valid() && offset < argc
      modifies argv, types
      ensures Valid()
      ensures argv[..] == old(argv[..])[offset := IntSlot(value)]
      ensures types[..] == old(types[..])[offset := ArgInteger]
    {
      argv[offset] := IntSlot(value);
      types[offset] := ArgInteger;
    }

    /**
     * extension_callback_args_set_string: slot offset holds a copy of the string,
     * or is left empty for NULL, and is typed STRING either way.
     */
    method SetString(offset: nat, s: Option<string>)
      requires Valid() && offset < argc
      modifies argv, types
      ensures Valid()
      ensures argv[..] == old(argv[..])[offset := if s.Some? then StrSlot(s.value) else Empty]
      ensures types[..] == old(types[..])[offset := ArgString]
    {
      argv[offset] := if s.Some? then StrSlot(s.value) else Empty;
      types[offset] := ArgString;
    }
  }
}
