/**
 * The parts of options_getopt.c around the getopt_long loop: taking the
 * `--exec … ;` groups out of argv, counting the leading positional
 * arguments, filing them as search directories and the expression, and the
 * handlers of the -e, -d and -q options.
 */
module OptionsGetopt {
  import opened Wrappers
  import EA = ExecArgs
  import opened Options

  // ------------------------------------------------------------ --exec groups

  /** What stealing the exec arguments gives: success, the remaining argv, the groups in order. */
  datatype Stolen = Stolen(ok: bool, rest: seq<string>, groups: seq<seq<string>>)

  /**
   * The loop of _get_opt_steal_exec_args over the tokens still to read.
   * open holds the tokens of a group whose "--exec" has been seen and whose
   * ";" has not; an empty group stops the loop as malformed.
   */
  function Scan(ts: seq<string>, open: Option<seq<string>>, rest: seq<string>, groups: seq<seq<string>>): (r: Stolen)
    ensures |r.rest| <= |rest| + |ts|
    decreases |ts|
  {
    if ts == [] then Stolen(open.None?, rest, groups)
    else
      match open
      case Some(g) =>
        if ts[0] == ";" then
          if g == [] then Stolen(false, rest, groups)
          else Scan(ts[1..], None, rest, groups + [g])
        else Scan(ts[1..], Some(g + [ts[0]]), rest, groups)
      case None =>
        if ts[0] == "--exec" then Scan(ts[1..], Some([]), rest, groups)
        else Scan(ts[1..], None, rest + [ts[0]], groups)
  }

  /** _get_opt_steal_exec_args on a whole argv. */
  function Steal(argv: seq<string>): (r: Stolen)
    ensures |r.rest| <= |argv|
  {
    Scan(argv, None, [], [])
  }

  /** The ExecArgs each group becomes. */
  function BuiltAll(groups: seq<seq<string>>): (r: seq<EA.Contents>)
    ensures |r| == |groups|
  {
    seq(|groups|, i requires 0 <= i < |groups| => EA.Built(groups[i]))
  }

  /** exec_args_new followed by exec_args_append of each token in turn. */
  method NewExecArgs(tokens: seq<string>) returns (c: EA.Contents)
    ensures c == EA.Built(tokens)
  {
    var args := new EA.ExecArgs();
    var k := 0;
    while k < |tokens|
      invariant 0 <= k <= |tokens|
      invariant args.Valid() && args.Value() == EA.Built(tokens[..k])
      invariant fresh(args) && fresh(args.argv)
    {
      assert tokens[..k + 1][..k] == tokens[..k];
      args.Append(tokens[k]);
      k := k + 1;
    }
    assert tokens[..k] == tokens;
    c := args.Value();
  }

  /**
   * _get_opt_steal_exec_args: the tokens between each "--exec" and the next
   * ";" become one ExecArgs appended to the options; every other token is
   * copied to the new argv. Groups closed before a failure stay appended.
   */
  method StealExecArgs(argv: seq<string>, opts: Options) returns (success: bool, newArgv: array<string>, newArgc: nat)
    requires |argv| > 0
    modifies opts
    ensures fresh(newArgv) && newArgc <= newArgv.Length == |argv|
    ensures success == Steal(argv).ok
    ensures success ==> newArgv[..newArgc] == Steal(argv).rest
    ensures opts.Snapshot() == old(opts.Snapshot()).(exec := old(opts.exec) + BuiltAll(Steal(argv).groups))
  {
    newArgv := new string[|argv|];
    newArgc := 0;
    var open := false;
    var malformed := false;
    var start := 0;
    ghost var groups: seq<seq<string>> := [];
    assert argv[0..] == argv;
    hide Scan;
    var i := 0;
    while i < |argv| && !malformed
      invariant 0 <= start <= i <= |argv| && newArgc <= i
      invariant malformed ==> !open
      invariant (if malformed then Stolen(false, newArgv[..newArgc], groups)
                 else Scan(argv[i..], if open then Some(argv[start..i]) else None, newArgv[..newArgc], groups)) == Steal(argv)
      invariant opts.Snapshot() == old(opts.Snapshot()).(exec := old(opts.exec) + BuiltAll(groups))
      decreases |argv| - i
    {
      ScanStep(argv, i, start, open, newArgv[..newArgc], groups);
      if open {
        if argv[i] == ";" {
          open := false;
          if i - start != 0 {
            var c := NewExecArgs(argv[start..i]);
            opts.exec := opts.exec + [c];
            BuiltAllSnoc(groups, argv[start..i]);
            groups := groups + [argv[start..i]];
          } else {
            malformed := true;
          }
        }
      } else if argv[i] == "--exec" {
        open := true;
        start := i + 1;
      } else {
        ghost var rest := newArgv[..newArgc];
        newArgv[newArgc] := argv[i];
        newArgc := newArgc + 1;
        assert newArgv[..newArgc] == rest + [argv[i]];
      }
      i := i + 1;
    }
    if !malformed {
      ScanEnd(argv, if open then Some(argv[start..]) else None, newArgv[..newArgc], groups);
    }
    success := !open && !malformed;
  }

  /** One token of the loop of _get_opt_steal_exec_args, in terms of Scan. */
  lemma ScanStep(argv: seq<string>, i: nat, start: nat, open: bool, rest: seq<string>, groups: seq<seq<string>>)
    requires start <= i < |argv|
    ensures var g := argv[start..i];
      && (open && argv[i] == ";" && start < i ==>
            Scan(argv[i..], Some(g), rest, groups) == Scan(argv[i + 1..], None, rest, groups + [g]))
      && (open && argv[i] == ";" && start == i ==>
            Scan(argv[i..], Some(g), rest, groups) == Stolen(false, rest, groups))
      && (open && argv[i] != ";" ==>
            Scan(argv[i..], Some(g), rest, groups) == Scan(argv[i + 1..], Some(argv[start..i + 1]), rest, groups))
      && (!open && argv[i] == "--exec" ==>
            Scan(argv[i..], None, rest, groups) == Scan(argv[i + 1..], Some(argv[i + 1..i + 1]), rest, groups))
      && (!open && argv[i] != "--exec" ==>
            Scan(argv[i..], None, rest, groups) == Scan(argv[i + 1..], None, rest + [argv[i]], groups))
  {
    assert argv[i..][1..] == argv[i + 1..] && argv[i..][0] == argv[i];
    assert argv[start..i + 1] == argv[start..i] + [argv[i]];
    assert argv[i + 1..i + 1] == [];
  }

  /** Once argv is exhausted, stealing succeeds exactly when no group is left open. */
  lemma ScanEnd(argv: seq<string>, open: Option<seq<string>>, rest: seq<string>, groups: seq<seq<string>>)
    ensures Scan(argv[|argv|..], open, rest, groups) == Stolen(open.None?, rest, groups)
  {
    assert argv[|argv|..] == [];
  }

  lemma BuiltAllSnoc(groups: seq<seq<string>>, g: seq<string>)
    ensures BuiltAll(groups + [g]) == BuiltAll(groups) + [EA.Built(g)]
  {
  }

  /** A token of an argv that stealing accepts: a plain argument or a whole exec group. */
  datatype Item = Plain(arg: string) | Group(tokens: seq<string>)

  /** Plain arguments are not "--exec"; groups are non-empty and hold no ";". */
  predicate WellFormed(items: seq<Item>)
  {
    forall i :: 0 <= i < |items| ==>
      match items[i]
      case Plain(a) => a != "--exec"
      case Group(g) => g != [] && ";" !in g
  }

  /** The tokens of one item: a group is written "--exec", its tokens, ";". */
  function RenderItem(item: Item): (r: seq<string>)
  {
    match item
    case Plain(a) => [a]
    case Group(g) => ["--exec"] + g + [";"]
  }

  /** The argv an item sequence spells. */
  function Render(items: seq<Item>): (r: seq<string>)
    decreases |items|
  {
    if items == [] then [] else RenderItem(items[0]) + Render(items[1..])
  }

  function Plains(items: seq<Item>): (r: seq<string>)
    ensures |r| <= |items|
    decreases |items|
  {
    if items == [] then []
    else (match items[0] case Plain(a) => [a] case Group(_) => []) + Plains(items[1..])
  }

  function Groups(items: seq<Item>): (r: seq<seq<string>>)
    ensures |r| <= |items|
    decreases |items|
  {
    if items == [] then []
    else (match items[0] case Plain(_) => [] case Group(g) => [g]) + Groups(items[1..])
  }

  /** Reading a group's tokens and its ";" closes the group with all of them. */
  lemma {:induction false} ScanGroup(g: seq<string>, ts: seq<string>, acc: seq<string>, rest: seq<string>, groups: seq<seq<string>>)
    requires ";" !in g && acc + g != []
    ensures Scan(g + [";"] + ts, Some(acc), rest, groups) == Scan(ts, None, rest, groups + [acc + g])
    decreases |g|
  {
    if g == [] {
      assert ([] + [";"] + ts)[1..] == ts;
      assert acc + g == acc;
    } else {
      assert (g + [";"] + ts)[1..] == g[1..] + [";"] + ts;
      assert acc + [g[0]] + g[1..] == acc + g;
      ScanGroup(g[1..], ts, acc + [g[0]], rest, groups);
    }
  }

  /** Reading a plain argument copies it. */
  lemma ScanPlain(a: string, ts: seq<string>, rest: seq<string>, groups: seq<seq<string>>)
    requires a != "--exec"
    ensures Scan([a] + ts, None, rest, groups) == Scan(ts, None, rest + [a], groups)
  {
    assert ([a] + ts)[1..] == ts;
  }

  /** Reading a whole group collects it. */
  lemma ScanWholeGroup(g: seq<string>, ts: seq<string>, rest: seq<string>, groups: seq<seq<string>>)
    requires g != [] && ";" !in g
    ensures Scan(RenderItem(Group(g)) + ts, None, rest, groups) == Scan(ts, None, rest, groups + [g])
  {
    assert RenderItem(Group(g)) + ts == ["--exec"] + (g + [";"] + ts);
    assert (["--exec"] + (g + [";"] + ts))[1..] == g + [";"] + ts;
    ScanGroup(g, ts, [], rest, groups);
    assert [] + g == g;
  }

  /** The items after the first of a well-formed sequence are well-formed too. */
  lemma WellFormedTail(items: seq<Item>)
    requires WellFormed(items) && items != []
    ensures WellFormed(items[1..])
    ensures match items[0] case Plain(a) => a != "--exec" case Group(g) => g != [] && ";" !in g
  {
    forall i | 0 <= i < |items[1..]| ensures items[1..][i] == items[i + 1] { }
  }

  /** Reading the first item of a rendered sequence when it is a plain argument, then the rest as the hypothesis says. */
  lemma ScanFirstPlain(items: seq<Item>, ts: seq<string>, rest: seq<string>, groups: seq<seq<string>>)
    requires WellFormed(items) && items != [] && items[0].Plain?
    requires Scan(Render(items[1..]) + ts, None, rest + [items[0].arg], groups)
      == Scan(ts, None, rest + [items[0].arg] + Plains(items[1..]), groups + Groups(items[1..]))
    ensures Scan(Render(items) + ts, None, rest, groups) == Scan(ts, None, rest + Plains(items), groups + Groups(items))
  {
    hide Scan;
    WellFormedTail(items);
    var tail := Render(items[1..]) + ts;
    assert Render(items) + ts == [items[0].arg] + tail;
    ScanPlain(items[0].arg, tail, rest, groups);
    assert Plains(items) == [items[0].arg] + Plains(items[1..]);
    assert Groups(items) == [] + Groups(items[1..]) == Groups(items[1..]);
    assert rest + [items[0].arg] + Plains(items[1..]) == rest + Plains(items);
  }

  /** Reading the first item of a rendered sequence when it is a group, then the rest as the hypothesis says. */
  lemma ScanFirstGroup(items: seq<Item>, ts: seq<string>, rest: seq<string>, groups: seq<seq<string>>)
    requires WellFormed(items) && items != [] && items[0].Group?
    requires Scan(Render(items[1..]) + ts, None, rest, groups + [items[0].tokens])
      == Scan(ts, None, rest + Plains(items[1..]), groups + [items[0].tokens] + Groups(items[1..]))
    ensures Scan(Render(items) + ts, None, rest, groups) == Scan(ts, None, rest + Plains(items), groups + Groups(items))
  {
    hide Scan;
    WellFormedTail(items);
    var tail := Render(items[1..]) + ts;
    assert Render(items) + ts == RenderItem(items[0]) + tail;
    ScanWholeGroup(items[0].tokens, tail, rest, groups);
    assert Groups(items) == [items[0].tokens] + Groups(items[1..]);
    assert Plains(items) == [] + Plains(items[1..]) == Plains(items[1..]);
    assert groups + [items[0].tokens] + Groups(items[1..]) == groups + Groups(items);
  }

  /** Reading the argv that items spell copies its plain arguments and collects its groups. */
  lemma {:induction false} ScanRendered(items: seq<Item>, ts: seq<string>, rest: seq<string>, groups: seq<seq<string>>)
    requires WellFormed(items)
    ensures Scan(Render(items) + ts, None, rest, groups) == Scan(ts, None, rest + Plains(items), groups + Groups(items))
    decreases |items|
  {
    if items == [] {
      assert Render(items) + ts == ts;
      assert rest + Plains(items) == rest && groups + Groups(items) == groups;
      return;
    }
    hide *;
    WellFormedTail(items);
    if items[0].Plain? {
      ScanRendered(items[1..], ts, rest + [items[0].arg], groups);
      ScanFirstPlain(items, ts, rest, groups);
    } else {
      ScanRendered(items[1..], ts, rest, groups + [items[0].tokens]);
      ScanFirstGroup(items, ts, rest, groups);
    }
  }

  /**
   * Stealing an argv made of plain arguments and well-formed groups succeeds,
   * keeps the plain arguments in order and yields the groups in order.
   */
  lemma StealRendered(items: seq<Item>)
    requires WellFormed(items)
    ensures Steal(Render(items)) == Stolen(true, Plains(items), Groups(items))
  {
    ScanRendered(items, [], [], []);
    assert Render(items) + [] == Render(items);
  }

  /** The items a scan reads; an unclosed group at the end is dropped. */
  function Parse(ts: seq<string>, open: Option<seq<string>>): (r: seq<Item>)
    decreases |ts|
  {
    if ts == [] then []
    else
      match open
      case Some(g) =>
        if ts[0] == ";" then [Group(g)] + Parse(ts[1..], None)
        else Parse(ts[1..], Some(g + [ts[0]]))
      case None =>
        if ts[0] == "--exec" then Parse(ts[1..], Some([]))
        else [Plain(ts[0])] + Parse(ts[1..], None)
  }

  /** A successful scan reads items that spell exactly the tokens read. */
  lemma {:induction false} ParseRenders(ts: seq<string>, open: Option<seq<string>>, rest: seq<string>, groups: seq<seq<string>>)
    requires open.Some? ==> ";" !in open.value
    requires Scan(ts, open, rest, groups).ok
    ensures WellFormed(Parse(ts, open))
    ensures Render(Parse(ts, open)) == match open case None => ts case Some(g) => ["--exec"] + g + ts
    decreases |ts|
  {
    if ts == [] {
      assert open.None?;
      return;
    }
    match open {
      case Some(g) =>
        if ts[0] == ";" {
          assert g != [];
          ParseRenders(ts[1..], None, rest, groups + [g]);
          hide *;
          ConsGroup(g, Parse(ts[1..], None), ts[1..]);
          assert [";"] + ts[1..] == ts;
        } else {
          ParseRenders(ts[1..], Some(g + [ts[0]]), rest, groups);
          assert ["--exec"] + (g + [ts[0]]) + ts[1..] == ["--exec"] + g + ts;
        }
      case None =>
        if ts[0] == "--exec" {
          ParseRenders(ts[1..], Some([]), rest, groups);
          assert ["--exec"] + [] + ts[1..] == ts;
        } else {
          ParseRenders(ts[1..], None, rest + [ts[0]], groups);
          hide *;
          ConsPlain(ts[0], Parse(ts[1..], None), ts[1..]);
          assert [ts[0]] + ts[1..] == ts;
        }
    }
  }

  /** A well-formed group in front of well-formed items spelling tail. */
  lemma ConsGroup(g: seq<string>, p: seq<Item>, tail: seq<string>)
    requires g != [] && ";" !in g && WellFormed(p) && Render(p) == tail
    ensures WellFormed([Group(g)] + p) && Render([Group(g)] + p) == ["--exec"] + g + [";"] + tail
  {
    assert ([Group(g)] + p)[1..] == p;
    forall i | 0 <= i < |[Group(g)] + p|
      ensures match ([Group(g)] + p)[i] case Plain(a) => a != "--exec" case Group(h) => h != [] && ";" !in h
    {
      if i > 0 { assert ([Group(g)] + p)[i] == p[i - 1]; }
    }
  }

  /** A plain argument other than "--exec" in front of well-formed items spelling tail. */
  lemma ConsPlain(a: string, p: seq<Item>, tail: seq<string>)
    requires a != "--exec" && WellFormed(p) && Render(p) == tail
    ensures WellFormed([Plain(a)] + p) && Render([Plain(a)] + p) == [a] + tail
  {
    assert ([Plain(a)] + p)[1..] == p;
    forall i | 0 <= i < |[Plain(a)] + p|
      ensures match ([Plain(a)] + p)[i] case Plain(b) => b != "--exec" case Group(h) => h != [] && ";" !in h
    {
      if i > 0 { assert ([Plain(a)] + p)[i] == p[i - 1]; }
    }
  }

  /** Stealing succeeds exactly on the argv vectors that plain arguments and well-formed groups spell. */
  lemma StealSucceedsIffRendered(argv: seq<string>)
    ensures Steal(argv).ok <==> exists items :: WellFormed(items) && Render(items) == argv
  {
    if Steal(argv).ok {
      ParseRenders(argv, None, [], []);
    }
    if exists items :: WellFormed(items) && Render(items) == argv {
      var items :| WellFormed(items) && Render(items) == argv;
      StealRendered(items);
    }
  }

  /** A group that is never closed makes the scan fail. */
  lemma {:induction false} UnclosedFails(ts: seq<string>, acc: seq<string>, rest: seq<string>, groups: seq<seq<string>>)
    requires ";" !in ts
    ensures !Scan(ts, Some(acc), rest, groups).ok
    decreases |ts|
  {
    if ts != [] {
      UnclosedFails(ts[1..], acc + [ts[0]], rest, groups);
    }
  }

  /** An "--exec" without a closing ";" makes stealing fail. */
  lemma MissingSemicolonFails(items: seq<Item>, ys: seq<string>)
    requires WellFormed(items) && ";" !in ys
    ensures !Steal(Render(items) + ["--exec"] + ys).ok
  {
    assert Render(items) + ["--exec"] + ys == Render(items) + (["--exec"] + ys);
    ScanRendered(items, ["--exec"] + ys, [], []);
    assert (["--exec"] + ys)[1..] == ys && (["--exec"] + ys)[0] == "--exec";
    assert [] + Plains(items) == Plains(items);
    assert [] + Groups(items) == Groups(items);
    UnclosedFails(ys, [], Plains(items), Groups(items));
  }

  /** An empty "--exec ;" makes stealing fail. */
  lemma EmptyGroupFails(items: seq<Item>, ys: seq<string>)
    requires WellFormed(items)
    ensures !Steal(Render(items) + ["--exec", ";"] + ys).ok
  {
    assert Render(items) + ["--exec", ";"] + ys == Render(items) + (["--exec", ";"] + ys);
    ScanRendered(items, ["--exec", ";"] + ys, [], []);
    assert (["--exec", ";"] + ys)[1..] == [";"] + ys && (["--exec", ";"] + ys)[0] == "--exec";
    assert ([";"] + ys)[0] == ";";
  }

  // ------------------------------------------------------ leading positionals

  /** An argument getopt treats as an option: one that starts with '-'. */
  predicate IsOption(arg: string)
  {
    |arg| > 0 && arg[0] == '-'
  }

  /**
   * _get_opt_index_of_first_option: the number of arguments after argv[0]
   * that come before the first option.
   */
  method IndexOfFirstOption(argv: seq<string>) returns (index: nat)
    requires |argv| >= 1
    ensures index < |argv|
    ensures forall j :: 1 <= j <= index ==> !IsOption(argv[j])
    ensures index + 1 < |argv| ==> IsOption(argv[index + 1])
  {
    index := 0;
    var i := 1;
    while i < |argv|
      invariant 1 <= i <= |argv| && index == i - 1
      invariant forall j :: 1 <= j < i ==> !IsOption(argv[j])
    {
      if !(|argv[i]| > 0 && argv[i][0] == '-') {
        index := index + 1;
      } else {
        break;
      }
      i := i + 1;
    }
  }

  // --------------------------------------------------------------- directories

  /** slist_contains followed by slist_append: a directory is added once. */
  function AddDir(dirs: seq<string>, d: string): (r: seq<string>)
  {
    if d in dirs then dirs else dirs + [d]
  }

  /** Adding each directory of xs in turn. */
  function AddDirs(dirs: seq<string>, xs: seq<string>): (r: seq<string>)
    decreases |xs|
  {
    if xs == [] then dirs else AddDir(AddDirs(dirs, xs[..|xs| - 1]), xs[|xs| - 1])
  }

  predicate NoDuplicates(s: seq<string>)
  {
    forall i, j :: 0 <= i < j < |s| ==> s[i] != s[j]
  }

  function Elements(s: seq<string>): set<string>
  {
    set x | x in s
  }

  lemma ElementsSnoc(xs: seq<string>, x: string)
    ensures Elements(xs + [x]) == Elements(xs) + {x}
  {
    assert forall y :: y in xs + [x] <==> y in xs || y == x;
  }

  /** The directories afterwards are those before plus those added. */
  lemma {:induction false} AddDirsElements(dirs: seq<string>, xs: seq<string>)
    ensures Elements(AddDirs(dirs, xs)) == Elements(dirs) + Elements(xs)
    decreases |xs|
  {
    if xs != [] {
      var init := xs[..|xs| - 1];
      var d := xs[|xs| - 1];
      AddDirsElements(dirs, init);
      assert xs == init + [d];
      ElementsSnoc(init, d);
      var before := AddDirs(dirs, init);
      if d !in before {
        ElementsSnoc(before, d);
      }
    }
  }

  /** A list without duplicates keeps none, whatever is added. */
  lemma {:induction false} AddDirsNoDuplicates(dirs: seq<string>, xs: seq<string>)
    requires NoDuplicates(dirs)
    ensures NoDuplicates(AddDirs(dirs, xs))
    decreases |xs|
  {
    if xs != [] {
      AddDirsNoDuplicates(dirs, xs[..|xs| - 1]);
      var before := AddDirs(dirs, xs[..|xs| - 1]);
      var d := xs[|xs| - 1];
      if d !in before {
        assert forall i :: 0 <= i < |before| ==> before[i] != d;
      }
    }
  }

  /** The directories already listed stay first, in their order. */
  lemma {:induction false} AddDirsKeepsPrefix(dirs: seq<string>, xs: seq<string>)
    ensures |dirs| <= |AddDirs(dirs, xs)| && AddDirs(dirs, xs)[..|dirs|] == dirs
    decreases |xs|
  {
    if xs != [] {
      AddDirsKeepsPrefix(dirs, xs[..|xs| - 1]);
    }
  }

  /** Adding the same directories in another order, or with repeats, gives the same set. */
  lemma AddDirsOrderFree(dirs: seq<string>, xs: seq<string>, ys: seq<string>)
    requires Elements(xs) == Elements(ys)
    ensures Elements(AddDirs(dirs, xs)) == Elements(AddDirs(dirs, ys))
  {
    AddDirsElements(dirs, xs);
    AddDirsElements(dirs, ys);
  }

  /** _get_opt_append_single_search_dir. */
  function SingleDir(s: Settings, argv: seq<string>): Settings
    requires |argv| >= 2
  {
    s.(dirs := AddDir(s.dirs, argv[1]))
  }

  /**
   * _get_opt_append_multiple_search_dirs: without an expression the last
   * positional becomes the expression (and stdin is no longer read); the
   * others, or all of them when an expression was set, are directories.
   */
  function MultipleDirs(s: Settings, argv: seq<string>, offset: nat): Settings
    requires 1 <= offset < |argv|
  {
    if s.expr.Some? then s.(dirs := AddDirs(s.dirs, argv[1..offset + 1]))
    else s.(expr := Some(argv[offset]), flags := s.flags - {Stdin}, dirs := AddDirs(s.dirs, argv[1..offset]))
  }

  /** _get_opt_append_search_dirs_and_expr_from_argv. */
  function Placed(s: Settings, argv: seq<string>, offset: nat): Settings
    requires offset < |argv|
  {
    if offset == 0 then s
    else if offset == 1 then SingleDir(s, argv)
    else MultipleDirs(s, argv, offset)
  }

  /**
   * Each leading positional ends up a directory, except the last of several
   * when no expression was set, which becomes the expression; nothing else
   * changes, and the directory list stays free of duplicates.
   */
  lemma PlacedPositionals(s: Settings, argv: seq<string>, offset: nat)
    requires offset < |argv| && NoDuplicates(s.dirs)
    ensures var t := Placed(s, argv, offset);
      var toExpr := offset >= 2 && s.expr.None?;
      var asDirs := if toExpr then argv[1..offset] else argv[1..offset + 1];
      Elements(t.dirs) == Elements(s.dirs) + Elements(asDirs) &&
      |s.dirs| <= |t.dirs| && t.dirs[..|s.dirs|] == s.dirs && NoDuplicates(t.dirs) &&
      t.expr == (if toExpr then Some(argv[offset]) else s.expr) &&
      t.flags == (if toExpr then s.flags - {Stdin} else s.flags) &&
      t.(dirs := s.dirs, expr := s.expr, flags := s.flags) == s
  {
    var toExpr := offset >= 2 && s.expr.None?;
    var asDirs := if toExpr then argv[1..offset] else argv[1..offset + 1];
    if offset == 1 {
      assert AddDirs(s.dirs, asDirs) == AddDir(s.dirs, argv[1]) by {
        assert asDirs == [argv[1]];
        assert asDirs[..0] == [];
      }
    }
    AddDirsElements(s.dirs, asDirs);
    AddDirsNoDuplicates(s.dirs, asDirs);
    AddDirsKeepsPrefix(s.dirs, asDirs);
  }

  /**
   * Listing the directories in another order, or repeating them, finds the
   * same set of directories and the same expression.
   */
  lemma PlacedOrderFree(s: Settings, argv: seq<string>, argv': seq<string>, offset: nat)
    requires 2 <= offset < |argv| && |argv'| == |argv| && argv'[offset] == argv[offset]
    requires Elements(argv[1..offset]) == Elements(argv'[1..offset])
    ensures Placed(s, argv, offset).expr == Placed(s, argv', offset).expr
    ensures Elements(Placed(s, argv, offset).dirs) == Elements(Placed(s, argv', offset).dirs)
  {
    if s.expr.Some? {
      ElementsSnoc(argv[1..offset], argv[offset]);
      ElementsSnoc(argv'[1..offset], argv'[offset]);
      assert argv[1..offset + 1] == argv[1..offset] + [argv[offset]];
      assert argv'[1..offset + 1] == argv'[1..offset] + [argv'[offset]];
      AddDirsOrderFree(s.dirs, argv[1..offset + 1], argv'[1..offset + 1]);
    } else {
      AddDirsOrderFree(s.dirs, argv[1..offset], argv'[1..offset]);
    }
  }

  method AppendSingleSearchDir(argv: seq<string>, opts: Options)
    requires |argv| >= 2
    modifies opts
    ensures opts.Snapshot() == SingleDir(old(opts.Snapshot()), argv)
  {
    if argv[1] !in opts.dirs {
      opts.dirs := opts.dirs + [argv[1]];
    }
  }

  method AppendMultipleSearchDirs(argv: seq<string>, offset: nat, opts: Options)
    requires 1 <= offset < |argv|
    modifies opts
    ensures opts.Snapshot() == MultipleDirs(old(opts.Snapshot()), argv, offset)
  {
    var limit := offset;
    if opts.expr.Some? {
      limit := limit + 1;
    } else {
      opts.expr := Some(argv[offset]);
      opts.flags := opts.flags - {Stdin};
    }
    ghost var before := opts.dirs;
    var i := 1;
    while i < limit
      invariant 1 <= i <= limit && (i > 1 ==> i <= limit)
      invariant opts.dirs == AddDirs(before, argv[1..i])
      invariant opts.Snapshot() == old(opts.Snapshot()).(dirs := opts.dirs, expr := opts.expr, flags := opts.flags)
      invariant opts.expr == (if old(opts.expr).Some? then old(opts.expr) else Some(argv[offset]))
      invariant opts.flags == (if old(opts.expr).Some? then old(opts.flags) else old(opts.flags) - {Stdin})
    {
      assert argv[1..i + 1] == argv[1..i] + [argv[i]];
      if argv[i] !in opts.dirs {
        opts.dirs := opts.dirs + [argv[i]];
      }
      i := i + 1;
    }
    assert before == old(opts.dirs);
  }

  method AppendSearchDirsAndExprFromArgv(argv: seq<string>, offset: nat, opts: Options)
    requires offset < |argv|
    modifies opts
    ensures opts.Snapshot() == Placed(old(opts.Snapshot()), argv, offset)
  {
    if offset != 0 {
      if offset == 1 {
        AppendSingleSearchDir(argv, opts);
      } else {
        AppendMultipleSearchDirs(argv, offset, opts);
      }
    }
  }

  // ------------------------------------------------------------ option handlers

  /**
   * _get_opt_parse_flag, given what utils_parse_bool makes of the argument:
   * true sets the flag, false clears it, a malformed argument changes nothing
   * and fails. No other flag and no other field changes.
   */
  method ParseFlag(parsed: Option<bool>, opts: Options, flag: Flag) returns (success: bool)
    modifies opts
    ensures success <==> parsed.Some?
    ensures success ==> (flag in opts.flags <==> parsed.value)
    ensures !success ==> opts.flags == old(opts.flags)
    ensures opts.flags - {flag} == old(opts.flags) - {flag}
    ensures opts.Snapshot().(flags := old(opts.flags)) == old(opts.Snapshot())
  {
    success := parsed.Some?;
    if success {
      if parsed.value {
        opts.flags := opts.flags + {flag};
      } else {
        opts.flags := opts.flags - {flag};
      }
    }
  }

  /**
   * The -q/--quote option: without an argument it sets FLAG_QUOTE; with one
   * it is parsed as a boolean, and a malformed one aborts.
   */
  method QuoteOption(optarg: Option<string>, parsed: Option<bool>, opts: Options) returns (abort: bool)
    modifies opts
    ensures abort <==> optarg.Some? && parsed.None?
    ensures !abort ==> (Quote in opts.flags <==> optarg.None? || parsed.value)
    ensures opts.flags - {Quote} == old(opts.flags) - {Quote}
    ensures opts.Snapshot().(flags := old(opts.flags)) == old(opts.Snapshot())
  {
    abort := false;
    if optarg.None? {
      opts.flags := opts.flags + {Quote};
    } else {
      var ok := ParseFlag(parsed, opts, Quote);
      abort := !ok;
    }
  }

  /** The -e/--expr option: the expression is replaced and stdin is no longer read. */
  method ExprOption(optarg: string, opts: Options)
    modifies opts
    ensures opts.expr == Some(optarg) && Stdin !in opts.flags
    ensures opts.flags == old(opts.flags) - {Stdin}
    ensures opts.Snapshot().(expr := old(opts.expr), flags := old(opts.flags)) == old(opts.Snapshot())
  {
    opts.expr := Some(optarg);
    opts.flags := opts.flags - {Stdin};
  }

  /** The -d/--dir option: a directory not yet listed is appended. */
  method DirOption(optarg: string, opts: Options)
    modifies opts
    ensures optarg in opts.dirs
    ensures opts.dirs == AddDir(old(opts.dirs), optarg)
    ensures NoDuplicates(old(opts.dirs)) ==> NoDuplicates(opts.dirs)
    ensures opts.Snapshot().(dirs := old(opts.dirs)) == old(opts.Snapshot())
  {
    if optarg !in opts.dirs {
      opts.dirs := opts.dirs + [optarg];
    }
  }
}
