/**
 * The argument list of one `--exec` command (exec-args.c): the first string
 * appended becomes the program path, every later one is pushed onto argv,
 * an array that doubles when full and refuses to grow past half of SIZE_MAX.
 */
module ExecArgs {
  import opened Wrappers
  import opened Words

  /** SIZE_MAX of a 64-bit size_t. */
  const SizeMax: nat := Two64 - 1
  /** The capacity exec_args_new gives argv. */
  const InitialSize: nat := 8

  /** What an ExecArgs holds: the path, the arguments and the capacity of argv. */
  datatype Contents = Contents(path: Option<string>, argv: seq<string>, size: nat)

  /** A freshly created list. */
  const Empty: Contents := Contents(None, [], InitialSize)

  /** _exec_args_resize_if_necessary: doubles a full array unless doubling would overflow. */
  function Resized(c: Contents): (r: Option<Contents>)
    ensures r.Some? <==> !(|c.argv| == c.size && c.size > SizeMax / 2)
  {
    if |c.argv| == c.size then
      if c.size > SizeMax / 2 then None else Some(c.(size := 2 * c.size))
    else Some(c)
  }

  /** exec_args_append: the first string becomes the path, later ones are pushed onto argv. */
  function Appended(c: Contents, arg: string): (r: Contents)
  {
    if c.path.Some? then
      match Resized(c)
      case None => c
      case Some(g) => g.(argv := g.argv + [arg])
    else c.(path := Some(arg))
  }

  /** The list after appending each string in turn to a fresh one. */
  function Built(xs: seq<string>): (r: Contents)
    decreases |xs|
  {
    if xs == [] then Empty else Appended(Built(xs[..|xs| - 1]), xs[|xs| - 1])
  }

  /**
   * The capacity is 8 doubled some number of times, holds every argument,
   * and is more than twice the count only before the first doubling.
   */
  ghost predicate Shaped(c: Contents)
  {
    (exists k: nat {:trigger Pow2(k)} :: c.size == InitialSize * Pow2(k)) &&
    |c.argv| <= c.size &&
    (c.size > InitialSize ==> 2 * |c.argv| > c.size)
  }

  /** An append that keeps nothing new happens only past SIZE_MAX / 2 arguments. */
  lemma RefusedOnlyWhenHuge(c: Contents, arg: string)
    requires c.path.Some? && |c.argv| <= c.size
    ensures Appended(c, arg).argv == c.argv + [arg] || |c.argv| > SizeMax / 2
  {
  }

  /** Appending keeps the capacity shape. */
  lemma AppendedShaped(c: Contents, arg: string)
    requires Shaped(c) && |c.argv| <= SizeMax / 2
    ensures Shaped(Appended(c, arg))
    ensures c.path.Some? ==> Appended(c, arg).argv == c.argv + [arg]
  {
    var k: nat :| c.size == InitialSize * Pow2(k);
    if c.path.Some? && |c.argv| == c.size {
      assert 2 * c.size == InitialSize * Pow2(k + 1);
    }
  }

  /**
   * Appending the strings of xs to a fresh list: the first is the path, the
   * others are argv in order, and the capacity is a doubling of 8 that holds them.
   */
  lemma {:induction false} BuiltInOrder(xs: seq<string>)
    requires |xs| <= SizeMax / 2
    ensures var c := Built(xs);
      c.path == (if xs == [] then None else Some(xs[0])) &&
      c.argv == (if xs == [] then [] else xs[1..]) &&
      Shaped(c)
    decreases |xs|
  {
    if xs == [] {
      assert InitialSize == InitialSize * Pow2(0);
    } else {
      var init := xs[..|xs| - 1];
      BuiltInOrder(init);
      var c := Built(init);
      AppendedShaped(c, xs[|xs| - 1]);
      if init != [] {
        assert init[0] == xs[0];
        assert xs[1..] == init[1..] + [xs[|xs| - 1]];
      }
    }
  }

  /** exec_args_append never changes the path once it is set, nor an argument already in argv. */
  lemma AppendKeepsEarlier(c: Contents, arg: string)
    ensures var r := Appended(c, arg);
      (c.path.Some? ==> r.path == c.path) &&
      |c.argv| <= |r.argv| && r.argv[..|c.argv|] == c.argv
  {
  }

  /** struct ExecArgs: path, argv with argc entries in use, and argv's capacity. */
  class ExecArgs {
    var path: Option<string>
    var argv: array<string>
    var argc: nat
    var size: nat

    predicate Valid()
      reads this, argv
    {
      argv.Length == size && argc <= size && 0 < size
    }

    /** The arguments in use. */
    function Args(): seq<string>
      reads this, argv
      requires Valid()
    {
      argv[..argc]
    }

    function Value(): Contents
      reads this, argv
      requires Valid()
    {
      Contents(path, Args(), size)
    }

    /** exec_args_new: no path, no arguments, room for 8. */
    constructor ()
      ensures Valid() && fresh(argv)
      ensures Value() == Empty
    {
      path := None;
      size := InitialSize;
      argv := new string[InitialSize];
      argc := 0;
    }

    /** _exec_args_resize_if_necessary, where realloc is a copy into a new array. */
    method ResizeIfNecessary() returns (success: bool)
      requires Valid()
      modifies this
      ensures Valid() && (fresh(argv) || argv == old(argv))
      ensures success <==> Resized(old(Value())).Some?
      ensures success ==> Value() == Resized(old(Value())).value && argc < size
      ensures !success ==> Value() == old(Value())
    {
      ghost var before := Value();
      success := true;
      if argc == size {
        if size > SizeMax / 2 {
          success := false;
        } else {
          var grown := new string[2 * size];
          var k := 0;
          while k < argc
            invariant 0 <= k <= argc && grown[..k] == argv[..k]
            modifies grown
          {
            grown[k] := argv[k];
            k := k + 1;
          }
          assert grown[..argc] == before.argv;
          argv := grown;
          size := 2 * size;
          assert Value() == before.(size := size);
        }
      }
    }

    /** _exec_args_append_arg: pushes arg when the array has room or can grow. */
    method AppendArg(arg: string)
      requires Valid()
      modifies this, argv
      ensures Valid() && (fresh(argv) || argv == old(argv))
      ensures path == old(path)
      ensures Value() == match Resized(old(Value()))
        case None => old(Value())
        case Some(g) => g.(argv := g.argv + [arg])
    {
      ghost var before := Value();
      var success := ResizeIfNecessary();
      if success {
        argv[argc] := arg;
        argc := argc + 1;
        assert Args() == Resized(before).value.argv + [arg];
      }
    }

    /** exec_args_append. */
    method Append(arg: string)
      requires Valid()
      modifies this, argv
      ensures Valid() && (fresh(argv) || argv == old(argv))
      ensures Value() == Appended(old(Value()), arg)
    {
      if path.Some? {
        AppendArg(arg);
      } else {
        path := Some(arg);
      }
    }
  }
}
