/**
 * What the processor chains of processor.c do end to end: a limit processor
 * in front of a print processor prints the first N paths written to the
 * chain, a skip processor lets through all but the first N, and a sort
 * processor prints the files it collected, in order, when the chain is
 * completed.
 */
module ProcessorFacts {
  import opened Wrappers
  import FI = FileInfo
  import FL = FileList
  import opened Processor

  /** Every path of a sequence written to the chain in turn: the chain afterwards and every line printed. */
  function Fed(chain: seq<Proc>, dir: string, ps: seq<string>, w: World): (r: (seq<Proc>, seq<Line>))
    requires AllQuiet(chain)
    ensures AllQuiet(r.0) && KindsOf(r.0) == KindsOf(chain)
    decreases |ps|
  {
    if ps == [] then (chain, [])
    else
      var (_, chain', out) := ChainWritten(chain, dir, ps[0], w);
      var (chain'', out') := Fed(chain', dir, ps[1..], w);
      (chain'', out + out')
  }

  /** Feeding a non-empty sequence writes its first path, then feeds the rest to the chain that write leaves. */
  lemma FedStep(chain: seq<Proc>, dir: string, ps: seq<string>, w: World)
    requires AllQuiet(chain) && ps != []
    ensures var (_, chain', out) := ChainWritten(chain, dir, ps[0], w);
      Fed(chain, dir, ps, w) == (Fed(chain', dir, ps[1..], w).0, out + Fed(chain', dir, ps[1..], w).1)
  {
  }

  /** The lines the print processor writes for a sequence of paths. */
  function PathLines(ps: seq<string>): (r: seq<Line>)
    ensures |r| == |ps| && forall i :: 0 <= i < |ps| ==> r[i] == PathLine(ps[i])
  {
    seq(|ps|, i requires 0 <= i < |ps| => PathLine(ps[i]))
  }

  lemma PathLinesAppend(p: string, ps: seq<string>)
    ensures PathLines([p] + ps) == [PathLine(p)] + PathLines(ps)
  {
  }

  /** A print processor between writes: open, not readable, no error. */
  predicate Printing(q: Proc)
  {
    q.kind == Print && !q.readable && !q.closed && !q.error
  }

  /** A print processor at the end of a chain prints the path and stays as it was, but for the remembered path. */
  lemma PrintWrite(q: Proc, dir: string, path: string, w: World)
    requires Printing(q)
    ensures ChainWritten([q], dir, path, w) == (Continue, [q.(path := path)], [PathLine(path)])
  {
    var q' := q.(readable := true, path := path);
    assert [q][1..] == [];
    assert ProcRead(q') == (q.(path := path), Some(path));
    assert ChainWritten([], dir, path, w) == (Continue, [], []);
    DrainedStop(q.(path := path), [], Continue, false, dir, w);
    DrainedStep(q', [], Continue, false, dir, w);
    var d := Drained(q', [], Continue, false, dir, w);
    assert d.0 == Continue && d.1 == q.(path := path) && d.2 == [] && d.3 == [];
    var c := ChainWritten([q], dir, path, w);
    assert c.1 == [q.(path := path)] && c.2 == [PathLine(path)];
  }

  /** A print processor on its own prints every path written to it. */
  lemma {:induction false} PrintEchoes(q: Proc, dir: string, ps: seq<string>, w: World)
    requires Printing(q)
    ensures Fed([q], dir, ps, w).1 == PathLines(ps)
    decreases |ps|
  {
    if ps != [] {
      PrintWrite(q, dir, ps[0], w);
      PrintEchoes(q.(path := ps[0]), dir, ps[1..], w);
      PathLinesAppend(ps[0], ps[1..]);
      assert ps == [ps[0]] + ps[1..];
    }
  }

  // ------------------------------------------------------------------- limit

  /** A limit processor between writes: its count is below the range while it is open (0 for range 0). */
  predicate Limiting(p: Proc, n: nat)
  {
    p.kind == Limit(n) && !p.readable && !p.error &&
    (!p.closed ==> (if n == 0 then p.count == 0 else p.count < n))
  }

  /** How many more paths a limit processor lets through. */
  function LimitLeft(p: Proc, n: nat): nat
    requires Limiting(p, n)
  {
    if p.closed || n == 0 then 0 else n - p.count
  }

  /** One write to a limit processor in front of a print processor. */
  lemma LimitWrite(p: Proc, n: nat, q: Proc, dir: string, path: string, w: World)
    requires Limiting(p, n) && Printing(q)
    ensures var (r, chain, out) := ChainWritten([p, q], dir, path, w);
      |chain| == 2 && Limiting(chain[0], n) && Printing(chain[1]) &&
      (LimitLeft(p, n) == 0 ==> out == [] && LimitLeft(chain[0], n) == 0) &&
      (LimitLeft(p, n) > 0 ==> out == [PathLine(path)] && LimitLeft(chain[0], n) == LimitLeft(p, n) - 1)
  {
    assert [p, q][1..] == [q];
    if !p.closed && n != 0 {
      var p' := p.(readable := true, count := p.count + 1, path := path);
      var p'' := p'.(readable := false, closed := p.count + 1 >= n);
      assert ProcRead(p') == (p'', Some(path));
      PrintWrite(q, dir, path, w);
      assert Drained(p'', [q.(path := path)], Continue, false, dir, w) == (Continue, p'', [q.(path := path)], []);
      assert Drained(p', [q], Continue, false, dir, w) == (Continue, p'', [q.(path := path)], [PathLine(path)]);
    }
  }

  /** Writing paths to a limit processor in front of a print processor prints as many of them as the limit has left. */
  lemma {:induction false} LimitRun(p: Proc, n: nat, q: Proc, dir: string, ps: seq<string>, w: World)
    requires Limiting(p, n) && Printing(q)
    ensures Fed([p, q], dir, ps, w).1 == PathLines(ps[..if LimitLeft(p, n) < |ps| then LimitLeft(p, n) else |ps|])
    decreases |ps|
  {
    if ps != [] {
      LimitWrite(p, n, q, dir, ps[0], w);
      FedStep([p, q], dir, ps, w);
      var (_, chain, out) := ChainWritten([p, q], dir, ps[0], w);
      hide Fed, ChainWritten, PathLines, Limiting, LimitLeft;
      assert chain == [chain[0], chain[1]];
      LimitRun(chain[0], n, chain[1], dir, ps[1..], w);
      LimitLinesStep(ps, LimitLeft(p, n), LimitLeft(chain[0], n), out);
    }
  }

  /** The lines of one limited write followed by those of the rest are the lines of the limited prefix. */
  lemma LimitLinesStep(ps: seq<string>, left: nat, left': nat, out: seq<Line>)
    requires ps != []
    requires left == 0 ==> out == [] && left' == 0
    requires left > 0 ==> out == [PathLine(ps[0])] && left' == left - 1
    ensures out + PathLines(ps[1..][..if left' < |ps| - 1 then left' else |ps| - 1]) == PathLines(ps[..if left < |ps| then left else |ps|])
  {
    var k := if left < |ps| then left else |ps|;
    if k > 0 {
      assert ps[..k] == [ps[0]] + ps[1..][..k - 1];
      PathLinesAppend(ps[0], ps[1..][..k - 1]);
    }
  }

  /** limit_processor_new(N) in front of a print processor prints the first N paths written to the chain. */
  lemma LimitPrintsFirst(n: nat, dir: string, ps: seq<string>, w: World)
    ensures Fed([Fresh(Limit(n)), Fresh(Print)], dir, ps, w).1 == PathLines(ps[..if n < |ps| then n else |ps|])
  {
    LimitRun(Fresh(Limit(n)), n, Fresh(Print), dir, ps, w);
  }

  // -------------------------------------------------------------------- skip

  /** A skip processor between writes: not readable, never closed, its count at most the range. */
  predicate Skipping(p: Proc, n: nat)
  {
    p.kind == Skip(n) && !p.readable && !p.closed && !p.error && p.count <= n
  }

  /** One write to a skip processor in front of a print processor. */
  lemma SkipWrite(p: Proc, n: nat, q: Proc, dir: string, path: string, w: World)
    requires Skipping(p, n) && Printing(q)
    ensures var (r, chain, out) := ChainWritten([p, q], dir, path, w);
      |chain| == 2 && Skipping(chain[0], n) && Printing(chain[1]) &&
      (p.count < n ==> out == [] && chain[0].count == p.count + 1) &&
      (p.count == n ==> out == [PathLine(path)] && chain[0].count == n)
  {
    assert [p, q][1..] == [q];
    if p.count == n {
      var p' := p.(readable := true, path := path);
      assert ProcRead(p') == (p.(path := path), Some(path));
      PrintWrite(q, dir, path, w);
      assert Drained(p.(path := path), [q.(path := path)], Continue, false, dir, w) == (Continue, p.(path := path), [q.(path := path)], []);
    }
  }

  /** Writing paths to a skip processor in front of a print processor prints all but as many as it has left to skip. */
  lemma {:induction false} SkipRun(p: Proc, n: nat, q: Proc, dir: string, ps: seq<string>, w: World)
    requires Skipping(p, n) && Printing(q)
    ensures Fed([p, q], dir, ps, w).1 == PathLines(ps[if n - p.count < |ps| then n - p.count else |ps|..])
    decreases |ps|
  {
    if ps != [] {
      SkipWrite(p, n, q, dir, ps[0], w);
      FedStep([p, q], dir, ps, w);
      var (_, chain, out) := ChainWritten([p, q], dir, ps[0], w);
      hide Fed, ChainWritten, PathLines, Skipping;
      assert chain == [chain[0], chain[1]];
      SkipRun(chain[0], n, chain[1], dir, ps[1..], w);
      SkipLinesStep(ps, n - p.count, n - chain[0].count, out);
    }
  }

  /** The lines of one skipping write followed by those of the rest are the lines after the skipped prefix. */
  lemma SkipLinesStep(ps: seq<string>, left: nat, left': nat, out: seq<Line>)
    requires ps != []
    requires left == 0 ==> out == [PathLine(ps[0])] && left' == 0
    requires left > 0 ==> out == [] && left' == left - 1
    ensures out + PathLines(ps[1..][if left' < |ps| - 1 then left' else |ps| - 1..]) == PathLines(ps[if left < |ps| then left else |ps|..])
  {
    if left == 0 {
      assert ps[0..] == [ps[0]] + ps[1..][0..];
      PathLinesAppend(ps[0], ps[1..]);
    } else {
      var k := if left < |ps| then left else |ps|;
      assert ps[k..] == ps[1..][k - 1..];
    }
  }

  /** skip_processor_new(N) in front of a print processor prints every path after the first N. */
  lemma {:induction false} SkipPrintsRest(n: nat, dir: string, ps: seq<string>, w: World)
    ensures Fed([Fresh(Skip(n)), Fresh(Print)], dir, ps, w).1 == PathLines(ps[if n < |ps| then n else |ps|..])
  {
    SkipRun(Fresh(Skip(n)), n, Fresh(Print), dir, ps, w);
  }

  // -------------------------------------------------------------------- sort

  /** The files of the paths whose details can be read, as the sort processor's list collects them. */
  function Collected(dir: string, ps: seq<string>, w: World): (r: seq<FI.Info>)
    ensures |r| <= |ps|
  {
    if ps == [] then []
    else
      var head := match FI.Get(dir, ps[0], w.stat(ps[0])) case None => [] case Some(info) => [info];
      head + Collected(dir, ps[1..], w)
  }

  /** The paths of a list of files. */
  function PathsOf(es: seq<FI.Info>): (r: seq<string>)
    ensures |r| == |es| && forall i :: 0 <= i < |es| ==> r[i] == es[i].path
  {
    seq(|es|, i requires 0 <= i < |es| => es[i].path)
  }

  /** A sort processor before it is closed: open, not readable, nothing read yet. */
  predicate Collecting(p: Proc)
  {
    p.kind.Sort? && OrderOk(p.kind.order) && !p.readable && !p.closed && !p.error && p.offset == 0
  }

  /** Writing to a sort processor collects the file and prints nothing. */
  lemma SortWrite(p: Proc, q: Proc, dir: string, path: string, w: World)
    requires Collecting(p) && Printing(q)
    ensures var (r, chain, out) := ChainWritten([p, q], dir, path, w);
      r == Continue && out == [] &&
      chain == [p.(entries := p.entries + Collected(dir, [path], w)), q]
  {
    assert [p, q][1..] == [q];
    assert [path][1..] == [];
    var p1 := p.(entries := p.entries + Collected(dir, [path], w));
    match FI.Get(dir, path, w.stat(path)) {
      case None =>
        assert Collected(dir, [path], w) == [];
        assert p1 == p;
      case Some(info) =>
        assert Collected(dir, [path], w) == [info];
    }
    assert ProcWrite(p, dir, path, w) == (p1, []);
    DrainedStop(p1, [q], Continue, false, dir, w);
    var c := ChainWritten([p, q], dir, path, w);
    assert c.0 == Continue && c.1 == [p1, q] && c.2 == [];
  }

  lemma {:induction false} SortRun(p: Proc, q: Proc, dir: string, ps: seq<string>, w: World)
    requires Collecting(p) && Printing(q)
    ensures Fed([p, q], dir, ps, w) == ([p.(entries := p.entries + Collected(dir, ps, w)), q], [])
    decreases |ps|
  {
    hide ChainWritten, Drained;
    if ps != [] {
      SortWrite(p, q, dir, ps[0], w);
      var p' := p.(entries := p.entries + Collected(dir, [ps[0]], w));
      SortRun(p', q, dir, ps[1..], w);
      assert [ps[0]][1..] == [];
      assert Collected(dir, [ps[0]], w) + Collected(dir, ps[1..], w) == Collected(dir, ps, w);
      assert p.entries + Collected(dir, [ps[0]], w) + Collected(dir, ps[1..], w) == p.entries + Collected(dir, ps, w);
      var f := Fed([p, q], dir, ps, w);
      assert f.0 == [p.(entries := p.entries + Collected(dir, ps, w)), q];
      assert f.1 == [];
    } else {
      assert p.entries + Collected(dir, ps, w) == p.entries;
    }
  }

  /** After closing, a sort processor hands its entries from the offset on to the print processor. */
  lemma {:induction false} SortDrains(p: Proc, q: Proc, dir: string, w: World)
    requires p.kind.Sort? && OrderOk(p.kind.order) && p.readable && !p.closed && !p.error && p.offset < |p.entries|
    requires Printing(q)
    ensures var d := Drained(p, [q], Continue, true, dir, w);
      d.0 == Continue && d.3 == PathLines(PathsOf(p.entries[p.offset..])) && d.1.closed
    decreases |p.entries| - p.offset
  {
    var path := p.entries[p.offset].path;
    var last := p.offset + 1 == |p.entries|;
    var p' := p.(readable := !last, closed := last, offset := p.offset + 1);
    assert ProcRead(p) == (p', Some(path));
    PrintWrite(q, dir, path, w);
    assert PathsOf(p.entries[p.offset..]) == [path] + PathsOf(p.entries[p.offset + 1..]);
    PathLinesAppend(path, PathsOf(p.entries[p.offset + 1..]));
    if !last {
      SortDrains(p', q.(path := path), dir, w);
    } else {
      assert p.entries[p.offset + 1..] == [];
    }
  }

  /** Completing a collecting sort processor in front of a print processor prints its list sorted. */
  lemma SortCompletes(p: Proc, q: Proc, dir: string, w: World)
    requires Collecting(p) && Printing(q)
    ensures var done := ChainCompleted([p, q], dir, w);
      done.0 == Completed &&
      done.2 == PathLines(PathsOf(FL.SortBy(p.entries, p.kind.order, w.cmp, w.envOf)))
  {
    hide Drained;
    assert [p, q][1..] == [q];
    var sorted := FL.SortBy(p.entries, p.kind.order, w.cmp, w.envOf);
    var done := ChainCompleted([p, q], dir, w);
    assert StateResult(p) == Continue;
    if p.entries != [] {
      var p2 := p.(readable := true, entries := sorted);
      assert ProcClose(p, w) == p2;
      SortDrains(p2, q, dir, w);
      assert sorted[0..] == sorted;
      var d := Drained(p2, [q], Continue, true, dir, w);
      assert done.0 == Completed && done.2 == d.3;
    } else {
      assert ProcClose(p, w) == p.(closed := true);
      DrainedStop(p.(closed := true), [q], Continue, true, dir, w);
      assert sorted == [];
      assert done.0 == Completed && done.2 == [];
    }
  }

  /**
   * sort_processor_new in front of a print processor: writing paths prints
   * nothing, and completing the chain prints the collected files sorted by
   * the sort string's fields, and completes.
   */
  lemma {:induction false} SortPrintsSorted(orderby: Option<string>, dir: string, ps: seq<string>, w: World)
    ensures var order := FL.OrderOf(orderby);
      var (chain, out) := Fed([Fresh(Sort(order)), Fresh(Print)], dir, ps, w);
      var done := ChainCompleted(chain, dir, w);
      out == [] && done.0 == Completed &&
      done.2 == PathLines(PathsOf(FL.SortBy(Collected(dir, ps, w), order, w.cmp, w.envOf)))
  {
    hide ChainWritten, Drained, Fed, ChainCompleted;
    var order := FL.OrderOf(orderby);
    var p := Fresh(Sort(order));
    var q := Fresh(Print);
    SortRun(p, q, dir, ps, w);
    var es := Collected(dir, ps, w);
    assert p.entries + es == es;
    SortCompletes(p.(entries := es), q, dir, w);
  }
}
