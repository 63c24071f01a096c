/**
 * The processor chain of processor.c and the processors of range.c, print.c
 * and sort.c. A processor has state flags (readable, closed), a sink that
 * paths are written to and a source that processed paths are read from. A
 * chain writes a path to its head and forwards everything the head lets
 * through to the rest of the chain.
 *
 * The read/write/close function pointers of the C processors become a
 * datatype of processor kinds. The value model (Proc and the functions on it)
 * specifies what each step does; the class Processor and the chain methods
 * perform the steps and are proved against it. What the print processors
 * write to stdout is returned as a log of lines.
 */
module Processor {
  import opened Wrappers
  import FI = FileInfo
  import FL = FileList
  import F = Format
  import P = FormatParser


  /** The processor kinds: what each C constructor installs as read/write/close hooks. */
  datatype Kind =
    | Limit(range: nat)
    | Skip(range: nat)
    | Print
    | PrintFormat(nodes: seq<P.Node>)
    | Sort(order: FL.Order)

  /** A line written to stdout: a path by the print processor, the output of format_write by the format processor. */
  datatype Line = PathLine(path: string) | Formatted(emits: seq<F.Emit>)

  /** What the processors read from the file system: file details, the extra attribute data, and file_attr_compare. */
  datatype World = World(stat: string -> Option<FI.Stat>, envOf: string -> FI.Env, cmp: (FI.FileAttr, FI.FileAttr) -> int)

  /**
   * The state of a processor: its flags word, as the three bits the chain
   * reads (PROCESSOR_FLAGS_READABLE, PROCESSOR_FLAGS_CLOSED and the bit
   * processor_has_error tests, which processor.h does not define and no
   * processor of this model sets); the counter and the last path of the range
   * and print processors; the file list and the read offset of the sort
   * processor.
   */
  datatype Proc = Proc(kind: Kind, readable: bool, closed: bool, error: bool, count: nat, path: string, entries: seq<FI.Info>, offset: nat)

  /** ProcessorChainResult. */
  datatype Result = Continue | Completed | Error

  predicate IsReadable(p: Proc) { p.readable }
  predicate IsClosed(p: Proc) { p.closed }
  predicate HasError(p: Proc) { p.error }

  /** A new processor: no flags, count and offset 0, no path, an empty list. */
  function Fresh(kind: Kind): (p: Proc)
    ensures !IsReadable(p) && !IsClosed(p) && !HasError(p) && p.count == 0
  {
    Proc(kind, false, false, false, 0, "", [], 0)
  }

  predicate OrderOk(o: FL.Order)
  {
    0 <= o.n <= |o.fields| == |o.asc|
  }

  /**
   * The states a processor can be in while the chain runs: a readable
   * processor is never closed; a readable sort processor has an entry left
   * to read, and an open one has read none or has entries left.
   */
  predicate Sane(p: Proc)
  {
    (IsReadable(p) ==> !IsClosed(p)) &&
    (p.kind.Sort? ==>
      OrderOk(p.kind.order) && p.offset <= |p.entries| &&
      (IsReadable(p) ==> p.offset < |p.entries|) &&
      (!IsClosed(p) && p.offset == |p.entries| ==> p.offset == 0))
  }

  /** The states between chain calls: in addition, only a sort processor is ever left readable. */
  predicate Quiet(p: Proc)
  {
    Sane(p) && (!p.kind.Sort? ==> !IsReadable(p))
  }

  predicate AllQuiet(ps: seq<Proc>)
  {
    forall i :: 0 <= i < |ps| ==> Quiet(ps[i])
  }

  function KindsOf(ps: seq<Proc>): (r: seq<Kind>)
    ensures |r| == |ps| && forall i :: 0 <= i < |ps| ==> r[i] == ps[i].kind
  {
    seq(|ps|, i requires 0 <= i < |ps| => ps[i].kind)
  }

  /** How many more paths a processor can give before it stops being readable. */
  function Pending(p: Proc): nat
  {
    if !IsReadable(p) then 0
    else if p.kind.Sort? && p.offset < |p.entries| then |p.entries| - p.offset
    else 1
  }

  // ------------------------------------------------------------ the hooks

  /**
   * The read hooks. Range and print processors clear readable and return
   * the last path written; a limit processor closes once its count has
   * reached the range. A sort processor returns the next entry's path and
   * closes after the last one.
   */
  function HookRead(p: Proc): (Proc, string)
    requires p.kind.Sort? ==> p.offset < |p.entries|
  {
    match p.kind
    case Limit(range) =>
      (p.(readable := false, closed := p.closed || p.count >= range), p.path)
    case Sort(_) =>
      var offset := p.offset + 1;
      var last := offset == |p.entries|;
      (p.(readable := !last, closed := p.closed || last, offset := offset), p.entries[p.offset].path)
    case _ => (p.(readable := false), p.path)
  }

  /**
   * The write hooks. A limit processor with a non-zero range counts the path
   * and makes it readable; with range 0 it closes. A skip processor swallows
   * paths until its count reaches the range, and makes every later one
   * readable. The print processors write the path out and make it readable.
   * The sort processor appends the file to its list.
   */
  function HookWrite(p: Proc, dir: string, path: string, w: World): (Proc, seq<Line>)
  {
    match p.kind
    case Limit(range) =>
      if range != 0 then (p.(readable := true, count := p.count + 1, path := path), [])
      else (p.(readable := false, closed := true), [])
    case Skip(range) =>
      if p.count >= range then (p.(readable := true, path := path), [])
      else (p.(readable := false, count := p.count + 1), [])
    case Print =>
      (p.(readable := true, path := path), [PathLine(path)])
    case PrintFormat(nodes) =>
      (p.(readable := true, path := path),
       [Formatted(F.FormatWritten(nodes, dir, path, w.stat(path), w.envOf(path)))])
    case Sort(_) =>
      match FI.Get(dir, path, w.stat(path))
      case None => (p, [])
      case Some(info) => (p.(entries := p.entries + [info]), [])
  }

  /**
   * Closing: the sort processor sorts a non-empty list and becomes readable,
   * and closes when its list is empty; the print processors' close hooks and
   * processor_close's default for the range processors set CLOSED.
   */
  function HookClose(p: Proc, w: World): Proc
    requires p.kind.Sort? ==> OrderOk(p.kind.order)
  {
    match p.kind
    case Sort(order) =>
      if |p.entries| != 0 then p.(readable := true, entries := FL.SortBy(p.entries, order, w.cmp, w.envOf))
      else p.(closed := true)
    case _ => p.(closed := true)
  }

  // ------------------------------------------------------ processor_read/write/close

  /**
   * processor_read: the read hook runs only on a readable, open processor;
   * otherwise there is no path. A read never makes a processor readable that
   * was not, leaves only a sort processor readable, and shortens what is
   * pending.
   */
  function ProcRead(p: Proc): (r: (Proc, Option<string>))
    requires Sane(p)
    ensures Sane(r.0) && r.0.kind == p.kind
    ensures r.1.Some? <==> IsReadable(p)
    ensures !p.kind.Sort? ==> !IsReadable(r.0)
    ensures IsReadable(p) ==> Pending(r.0) < Pending(p)
    ensures !IsReadable(p) ==> r.0 == p
  {
    if IsReadable(p) && !IsClosed(p) then
      var (q, path) := HookRead(p);
      (q, Some(path))
    else (p, None)
  }

  /** processor_write: a closed processor is left as it is. */
  function ProcWrite(p: Proc, dir: string, path: string, w: World): (r: (Proc, seq<Line>))
    requires Quiet(p)
    ensures Sane(r.0) && r.0.kind == p.kind
    ensures p.kind.Sort? ==> Quiet(r.0)
    ensures IsClosed(p) ==> r == (p, [])
    ensures IsClosed(r.0) == (IsClosed(p) || (p.kind.Limit? && p.kind.range == 0))
  {
    if IsClosed(p) then (p, []) else HookWrite(p, dir, path, w)
  }

  /** processor_close: the close hook, or CLOSED when there is none; a closed processor is left as it is. */
  function ProcClose(p: Proc, w: World): (r: Proc)
    requires Quiet(p)
    ensures Quiet(r) && r.kind == p.kind
    ensures IsClosed(p) ==> r == p
    ensures !p.kind.Sort? ==> IsClosed(r)
  {
    if IsClosed(p) then p else HookClose(p, w)
  }

  /** _processor_state_to_chain_result: ERROR when the error bit is set, whether closed or not; COMPLETED when closed. */
  function StateResult(p: Proc): (r: Result)
    ensures r == Error <==> HasError(p)
    ensures r == Completed <==> !HasError(p) && IsClosed(p)
  {
    if HasError(p) then Error else if IsClosed(p) then Completed else Continue
  }

  // ------------------------------------------------------------------ the chain

  /** The loop condition of chain_write (only CONTINUE goes on) and of chain_complete (anything but COMPLETED goes on). */
  predicate Continues(r: Result, completing: bool)
  {
    if completing then r != Completed else r == Continue
  }

  /**
   * processor_chain_write: an empty chain answers CONTINUE; a head that is
   * closed or in error answers for the chain; otherwise the path is written
   * to the head and each path the head then gives is written to the rest of
   * the chain.
   */
  function ChainWritten(chain: seq<Proc>, dir: string, path: string, w: World): (r: (Result, seq<Proc>, seq<Line>))
    requires AllQuiet(chain)
    ensures AllQuiet(r.1) && KindsOf(r.1) == KindsOf(chain)
    decreases |chain|, 1, 0
  {
    if chain == [] then (Continue, [], [])
    else
      var result := StateResult(chain[0]);
      if result != Continue then (result, chain, [])
      else
        var (head, out) := ProcWrite(chain[0], dir, path, w);
        var (result', head', tail, out') := Drained(head, chain[1..], Continue, false, dir, w);
        ConsQuiet(head', tail, chain);
        (result', [head'] + tail, out + out')
  }

  /** The loop shared by chain_write and chain_complete: while the head is readable and the result goes on, read from the head and write to the tail. */
  function Drained(head: Proc, tail: seq<Proc>, result: Result, completing: bool, dir: string, w: World): (r: (Result, Proc, seq<Proc>, seq<Line>))
    requires Sane(head) && AllQuiet(tail)
    requires IsReadable(head) && !head.kind.Sort? ==> Continues(result, completing)
    ensures Quiet(r.1) && r.1.kind == head.kind
    ensures AllQuiet(r.2) && KindsOf(r.2) == KindsOf(tail)
    decreases |tail| + 1, 0, Pending(head)
  {
    if IsReadable(head) && Continues(result, completing) then
      var (head', path) := ProcRead(head);
      var (result', tail', out) := ChainWritten(tail, dir, path.value, w);
      var (result'', head'', tail'', out') := Drained(head', tail', result', completing, dir, w);
      (result'', head'', tail'', out + out')
    else (result, head, tail, [])
  }

  /**
   * processor_chain_complete: an empty chain is COMPLETED; otherwise the
   * head is closed and whatever it then gives is written to the rest of the
   * chain. The answer is never CONTINUE.
   */
  function ChainCompleted(chain: seq<Proc>, dir: string, w: World): (r: (Result, seq<Proc>, seq<Line>))
    requires AllQuiet(chain)
    ensures AllQuiet(r.1) && KindsOf(r.1) == KindsOf(chain)
    ensures r.0 != Continue
  {
    if chain == [] then (Completed, [], [])
    else
      var result := StateResult(chain[0]);
      if result != Continue then (result, chain, [])
      else
        var head := ProcClose(chain[0], w);
        var (result', head', tail, out) := Drained(head, chain[1..], Continue, true, dir, w);
        ConsQuiet(head', tail, chain);
        (if result' == Continue then Completed else result', [head'] + tail, out)
  }

  /** A quiet head of the same kind in front of a tail like the chain's tail keeps the chain quiet and its kinds. */
  lemma ConsQuiet(head: Proc, tail: seq<Proc>, chain: seq<Proc>)
    requires chain != [] && Quiet(head) && head.kind == chain[0].kind
    requires AllQuiet(tail) && KindsOf(tail) == KindsOf(chain[1..])
    ensures AllQuiet([head] + tail) && KindsOf([head] + tail) == KindsOf(chain)
  {
    assert forall i :: 0 < i < |chain| ==> ([head] + tail)[i] == tail[i - 1] && chain[1..][i - 1] == chain[i];
  }

  // ------------------------------------------------------------- the processors

  /** A processor: its kind is fixed when it is made, its state changes with every read, write and close. */
  class Processor {
    const kind: Kind
    var readable: bool
    var closed: bool
    var error: bool
    var count: nat
    var path: string
    var entries: seq<FI.Info>
    var offset: nat

    function Snapshot(): Proc
      reads this
    {
      Proc(kind, readable, closed, error, count, path, entries, offset)
    }

    /** The memset and the hook assignment of the C constructors. */
    constructor (kind: Kind)
      ensures Snapshot() == Fresh(kind)
    {
      this.kind := kind;
      readable := false;
      closed := false;
      error := false;
      count := 0;
      path := "";
      entries := [];
      offset := 0;
    }

    method ReadHook() returns (r: string)
      requires kind.Sort? ==> offset < |entries|
      modifies this
      ensures (Snapshot(), r) == HookRead(old(Snapshot()))
    {
      match kind {
        case Limit(range) =>
          readable := false;
          if count >= range {
            closed := true;
          }
          r := path;
        case Sort(_) =>
          readable := true;
          r := entries[offset].path;
          offset := offset + 1;
          if offset == |entries| {
            readable := false;
            closed := true;
          }
        case _ =>
          readable := false;
          r := path;
      }
    }

    method WriteHook(dir: string, path: string, w: World) returns (out: seq<Line>)
      modifies this
      ensures (Snapshot(), out) == HookWrite(old(Snapshot()), dir, path, w)
    {
      out := [];
      match kind {
        case Limit(range) =>
          if range != 0 {
            readable := true;
            count := count + 1;
            this.path := path;
          } else {
            readable := false;
            closed := true;
          }
        case Skip(range) =>
          if count >= range {
            readable := true;
            this.path := path;
          } else {
            count := count + 1;
            readable := false;
          }
        case Print =>
          out := [PathLine(path)];
          readable := true;
          this.path := path;
        case PrintFormat(nodes) =>
          var emits := F.FormatWrite(nodes, dir, path, w.stat(path), w.envOf(path));
          out := [Formatted(emits)];
          readable := true;
          this.path := path;
        case Sort(_) =>
          var info := FI.Get(dir, path, w.stat(path));
          if info.Some? {
            entries := entries + [info.value];
          }
      }
    }

    method CloseHook(w: World)
      requires kind.Sort? ==> OrderOk(kind.order)
      modifies this
      ensures Snapshot() == HookClose(old(Snapshot()), w)
    {
      match kind {
        case Sort(order) =>
          if |entries| != 0 {
            readable := true;
            entries := FL.SortBy(entries, order, w.cmp, w.envOf);
          } else {
            closed := true;
          }
        case _ =>
          closed := true;
      }
    }

    /** processor_read. */
    method Read() returns (r: Option<string>)
      requires Sane(Snapshot())
      modifies this
      ensures (Snapshot(), r) == ProcRead(old(Snapshot()))
    {
      if readable && !closed {
        var path := ReadHook();
        r := Some(path);
      } else {
        r := None;
      }
    }

    /** processor_write. */
    method Write(dir: string, path: string, w: World) returns (out: seq<Line>)
      requires Quiet(Snapshot())
      modifies this
      ensures (Snapshot(), out) == ProcWrite(old(Snapshot()), dir, path, w)
    {
      out := [];
      if !closed {
        out := WriteHook(dir, path, w);
      }
    }

    /** processor_close. */
    method Close(w: World)
      requires Quiet(Snapshot())
      modifies this
      ensures Snapshot() == ProcClose(old(Snapshot()), w)
    {
      if !closed {
        CloseHook(w);
      }
    }

  }

  /** limit_processor_new. */
  method LimitNew(limit: nat) returns (p: Processor)
    ensures fresh(p) && p.Snapshot() == Fresh(Limit(limit))
  {
    p := new Processor(Limit(limit));
  }

  /** skip_processor_new. */
  method SkipNew(skip: nat) returns (p: Processor)
    ensures fresh(p) && p.Snapshot() == Fresh(Skip(skip))
  {
    p := new Processor(Skip(skip));
  }

  /** print_processor_new. */
  method PrintNew() returns (p: Processor)
    ensures fresh(p) && p.Snapshot() == Fresh(Print)
  {
    p := new Processor(Print);
  }

  /** print_format_processor_new: NULL when the format string does not parse. */
  method PrintFormatNew(format: string) returns (p: Processor?)
    requires '\0' !in format
    ensures p == null <==> !P.FormatParsed(format).success
    ensures p != null ==> fresh(p) && p.Snapshot() == Fresh(PrintFormat(P.FormatParsed(format).nodes))
  {
    var result := P.Parser.FormatParse(format);
    p := null;
    if result.success {
      p := new Processor(PrintFormat(result.nodes));
    }
  }

  /** sort_processor_new: NULL exactly when the sort string is invalid; otherwise a processor over an empty list sorted by the string's fields. */
  method SortNew(orderby: Option<string>) returns (p: Processor?)
    ensures p == null <==> FL.SortCount(orderby) == -1
    ensures p != null ==> fresh(p) && p.Snapshot() == Fresh(Sort(FL.OrderOf(orderby)))
  {
    var count := FL.SortStringTest(orderby);
    p := null;
    if count != -1 {
      var order := FL.ParseOrderBy(orderby);
      p := new Processor(Sort(order));
    }
  }

  // ---------------------------------------------------------- the chain methods

  predicate Distinct(chain: seq<Processor>)
  {
    forall i, j :: 0 <= i < j < |chain| ==> chain[i] != chain[j]
  }

  function Snapshots(chain: seq<Processor>): (r: seq<Proc>)
    reads chain
    ensures |r| == |chain| && forall i :: 0 <= i < |chain| ==> r[i] == chain[i].Snapshot()
  {
    seq(|chain|, i reads chain requires 0 <= i < |chain| => chain[i].Snapshot())
  }

  /** processor_chain_write on a chain of processors. */
  method ChainWrite(chain: seq<Processor>, dir: string, path: string, w: World) returns (result: Result, out: seq<Line>)
    requires Distinct(chain) && AllQuiet(Snapshots(chain))
    modifies chain
    ensures (result, Snapshots(chain), out) == ChainWritten(old(Snapshots(chain)), dir, path, w)
    decreases |chain|
  {
    ghost var start := Snapshots(chain);
    ChainWrittenCases(start, dir, path, w);
    hide ChainWritten, Drained, ProcWrite, AllQuiet;
    if chain == [] {
      return Continue, [];
    }
    var head := chain[0];
    var tail := chain[1..];
    DistinctSplit(chain);
    hide Distinct;
    assert start[1..] == Snapshots(tail);
    result := StateResult(head.Snapshot());
    if result != Continue {
      return result, [];
    }
    result, out := WriteThenDrain(head, tail, dir, path, w);
    SnapshotsCons(chain);
  }

  /** The body of processor_chain_write past the state check: the head takes the path, then the loop drains it. */
  method WriteThenDrain(head: Processor, tail: seq<Processor>, dir: string, path: string, w: World) returns (result: Result, out: seq<Line>)
    requires Distinct(tail) && head !in tail
    requires Quiet(head.Snapshot()) && AllQuiet(Snapshots(tail))
    modifies head, tail
    ensures var (written, o) := ProcWrite(old(head.Snapshot()), dir, path, w);
      var d := Drained(written, old(Snapshots(tail)), Continue, false, dir, w);
      result == d.0 && head.Snapshot() == d.1 && Snapshots(tail) == d.2 && out == o + d.3
    decreases |tail| + 1, 2
  {
    var o := head.Write(dir, path, w);
    result, out := Drain(head, tail, Continue, false, dir, w, o);
  }

  /** processor_chain_write by cases: an empty chain, a head that answers for the chain, a head that takes the path. */
  lemma ChainWrittenCases(chain: seq<Proc>, dir: string, path: string, w: World)
    requires AllQuiet(chain)
    ensures chain == [] ==> ChainWritten(chain, dir, path, w) == (Continue, [], [])
    ensures chain != [] ==> Quiet(chain[0]) && AllQuiet(chain[1..])
    ensures chain != [] && StateResult(chain[0]) != Continue ==> ChainWritten(chain, dir, path, w) == (StateResult(chain[0]), chain, [])
    ensures chain != [] && StateResult(chain[0]) == Continue ==>
      var (head, out) := ProcWrite(chain[0], dir, path, w);
      var d := Drained(head, chain[1..], Continue, false, dir, w);
      ChainWritten(chain, dir, path, w) == (d.0, [d.1] + d.2, out + d.3)
  {
  }

  /** The snapshots of a non-empty chain: the head's, then the tail's. */
  lemma SnapshotsCons(chain: seq<Processor>)
    requires chain != []
    ensures Snapshots(chain) == [chain[0].Snapshot()] + Snapshots(chain[1..])
  {
    assert forall i :: 0 < i < |chain| ==> chain[1..][i - 1] == chain[i];
  }

  /** The head of a chain of distinct processors is not in its tail, whose processors are distinct too. */
  lemma DistinctSplit(chain: seq<Processor>)
    requires Distinct(chain) && chain != []
    ensures Distinct(chain[1..]) && chain[0] !in chain[1..]
  {
  }

  /** One turn of the loop: read a path from the head and write it to the tail. */
  lemma DrainedStep(head: Proc, tail: seq<Proc>, result: Result, completing: bool, dir: string, w: World)
    requires Sane(head) && AllQuiet(tail)
    requires IsReadable(head) && Continues(result, completing)
    ensures var (head', path) := ProcRead(head);
      var (result', tail', out) := ChainWritten(tail, dir, path.value, w);
      var d := Drained(head', tail', result', completing, dir, w);
      Drained(head, tail, result, completing, dir, w) == (d.0, d.1, d.2, out + d.3)
  {
  }

  /** The loop ends when the head is no longer readable or the result stops it. */
  lemma DrainedStop(head: Proc, tail: seq<Proc>, result: Result, completing: bool, dir: string, w: World)
    requires Sane(head) && AllQuiet(tail)
    requires IsReadable(head) && !head.kind.Sort? ==> Continues(result, completing)
    requires !(IsReadable(head) && Continues(result, completing))
    ensures Drained(head, tail, result, completing, dir, w) == (result, head, tail, [])
  {
  }

  /** The while loops of processor_chain_write and processor_chain_complete. */
  method Drain(head: Processor, tail: seq<Processor>, result0: Result, completing: bool, dir: string, w: World, out0: seq<Line>)
    returns (result: Result, out: seq<Line>)
    requires Distinct(tail) && head !in tail
    requires Sane(head.Snapshot()) && AllQuiet(Snapshots(tail))
    requires IsReadable(head.Snapshot()) && !head.kind.Sort? ==> Continues(result0, completing)
    modifies head, tail
    ensures var d := Drained(old(head.Snapshot()), old(Snapshots(tail)), result0, completing, dir, w);
      result == d.0 && head.Snapshot() == d.1 && Snapshots(tail) == d.2 && out == out0 + d.3
    decreases |tail| + 1, 1
  {
    hide Drained, ChainWritten, ProcRead, Sane, AllQuiet, Pending, Distinct;
    ghost var goal := Drained(head.Snapshot(), Snapshots(tail), result0, completing, dir, w);
    result := result0;
    out := out0;
    while head.readable && Continues(result, completing)
      invariant Sane(head.Snapshot()) && AllQuiet(Snapshots(tail))
      invariant IsReadable(head.Snapshot()) && !head.kind.Sort? ==> Continues(result, completing)
      invariant var d := Drained(head.Snapshot(), Snapshots(tail), result, completing, dir, w);
        d.0 == goal.0 && d.1 == goal.1 && d.2 == goal.2 && out0 + goal.3 == out + d.3
      decreases Pending(head.Snapshot())
    {
      DrainedStep(head.Snapshot(), Snapshots(tail), result, completing, dir, w);
      var r, o := DrainTurn(head, tail, result, completing, dir, w);
      result := r;
      out := out + o;
    }
    DrainedStop(head.Snapshot(), Snapshots(tail), result, completing, dir, w);
  }

  /** One turn of the loop of Drain: a path read from the head is written to the tail. */
  method DrainTurn(head: Processor, tail: seq<Processor>, result0: Result, completing: bool, dir: string, w: World)
    returns (result: Result, out: seq<Line>)
    requires Distinct(tail) && head !in tail
    requires Sane(head.Snapshot()) && AllQuiet(Snapshots(tail))
    requires IsReadable(head.Snapshot()) && Continues(result0, completing)
    modifies head, tail
    ensures var (head', path) := ProcRead(old(head.Snapshot()));
      head.Snapshot() == head' && (result, Snapshots(tail), out) == ChainWritten(old(Snapshots(tail)), dir, path.value, w)
    decreases |tail| + 1, 0
  {
    var path := head.Read();
    result, out := ChainWrite(tail, dir, path.value, w);
  }

  /** processor_chain_complete on a chain of processors. */
  method ChainComplete(chain: seq<Processor>, dir: string, w: World) returns (result: Result, out: seq<Line>)
    requires Distinct(chain) && AllQuiet(Snapshots(chain))
    modifies chain
    ensures (result, Snapshots(chain), out) == ChainCompleted(old(Snapshots(chain)), dir, w)
  {
    ghost var start := Snapshots(chain);
    ChainCompletedCases(start, dir, w);
    hide ChainCompleted, ChainWritten, Drained, ProcClose, AllQuiet;
    if chain == [] {
      return Completed, [];
    }
    var head := chain[0];
    var tail := chain[1..];
    DistinctSplit(chain);
    hide Distinct;
    assert start[1..] == Snapshots(tail);
    result := StateResult(head.Snapshot());
    if result != Continue {
      return result, [];
    }
    result, out := CloseThenDrain(head, tail, dir, w);
    if result == Continue {
      result := Completed;
    }
    SnapshotsCons(chain);
  }

  /** processor_chain_complete by cases: an empty chain, a head that answers for the chain, a head that is closed. */
  lemma ChainCompletedCases(chain: seq<Proc>, dir: string, w: World)
    requires AllQuiet(chain)
    ensures chain == [] ==> ChainCompleted(chain, dir, w) == (Completed, [], [])
    ensures chain != [] ==> Quiet(chain[0]) && AllQuiet(chain[1..])
    ensures chain != [] && StateResult(chain[0]) != Continue ==> ChainCompleted(chain, dir, w) == (StateResult(chain[0]), chain, [])
    ensures chain != [] && StateResult(chain[0]) == Continue ==>
      var d := Drained(ProcClose(chain[0], w), chain[1..], Continue, true, dir, w);
      ChainCompleted(chain, dir, w) == (if d.0 == Continue then Completed else d.0, [d.1] + d.2, d.3)
  {
  }

  /** The body of processor_chain_complete past the state check: the head is closed, then the loop drains it. */
  method CloseThenDrain(head: Processor, tail: seq<Processor>, dir: string, w: World) returns (result: Result, out: seq<Line>)
    requires Distinct(tail) && head !in tail
    requires Quiet(head.Snapshot()) && AllQuiet(Snapshots(tail))
    modifies head, tail
    ensures var d := Drained(ProcClose(old(head.Snapshot()), w), old(Snapshots(tail)), Continue, true, dir, w);
      result == d.0 && head.Snapshot() == d.1 && Snapshots(tail) == d.2 && out == d.3
  {
    head.Close(w);
    result, out := Drain(head, tail, Continue, true, dir, w, []);
  }

  // ---------------------------------------------------------------- the builder

  /** The functions given to processor_chain_builder_do: each tries to prepend a processor (NULL when it could not be made) or fails the builder. */
  datatype Step = TryPrepend(p: Processor?) | FailStep

  /** The builder's chain and failed flag after try_prepend. */
  function Prepended(chain: seq<Processor>, failed: bool, p: Processor?): (r: (seq<Processor>, bool))
    ensures r.1 <==> failed || p == null
  {
    if p != null && !failed then ([p] + chain, false) else Failed(chain, failed)
  }

  /** processor_chain_builder_fail: the chain is destroyed and the builder stays failed. */
  function Failed(chain: seq<Processor>, failed: bool): (r: (seq<Processor>, bool))
    ensures r.1
    ensures failed ==> r.0 == chain
    ensures !failed ==> r.0 == []
  {
    if failed then (chain, true) else ([], true)
  }

  /** processor_chain_builder_do: the steps run in order until the builder has failed. */
  function Built(chain: seq<Processor>, failed: bool, steps: seq<Step>): (seq<Processor>, bool)
    decreases |steps|
  {
    if steps == [] || failed then (chain, failed)
    else
      var next := match steps[0]
        case TryPrepend(p) => Prepended(chain, failed, p)
        case FailStep => Failed(chain, failed);
      Built(next.0, next.1, steps[1..])
  }

  /** ProcessorChainBuilder: the chain built so far and the failure latch. */
  class Builder {
    var chain: seq<Processor>
    var failed: bool

    predicate Valid()
      reads this
    {
      failed ==> chain == []
    }

    /** processor_chain_builder_init. */
    constructor ()
      ensures Valid() && chain == [] && !failed
    {
      chain := [];
      failed := false;
    }

    /** processor_chain_builder_try_prepend: true while the builder has not failed. */
    method TryPrependProcessor(p: Processor?) returns (ok: bool)
      requires Valid()
      modifies this
      ensures Valid() && (chain, failed) == Prepended(old(chain), old(failed), p) && ok == !failed
    {
      if p != null && !failed {
        chain := [p] + chain;
      } else {
        Fail();
      }
      ok := !failed;
    }

    /** processor_chain_builder_fail. */
    method Fail()
      requires Valid()
      modifies this
      ensures Valid() && (chain, failed) == Failed(old(chain), old(failed))
    {
      if !failed {
        chain := [];
        failed := true;
      }
    }

    /** processor_chain_builder_do. */
    method Do(steps: seq<Step>)
      requires Valid()
      modifies this
      ensures Valid() && (chain, failed) == Built(old(chain), old(failed), steps)
    {
      var i := 0;
      while i < |steps| && !failed
        invariant 0 <= i <= |steps| && Valid()
        invariant Built(chain, failed, steps[i..]) == Built(old(chain), old(failed), steps)
        decreases |steps| - i
      {
        assert steps[i..][0] == steps[i] && steps[i..][1..] == steps[i + 1..];
        match steps[i] {
          case TryPrepend(p) =>
            var _ := TryPrependProcessor(p);
          case FailStep =>
            Fail();
        }
        i := i + 1;
      }
      if i == |steps| {
        assert steps[i..] == [];
      }
    }

    /** processor_chain_builder_get_chain. */
    function GetChain(): seq<Processor>
      reads this
    {
      chain
    }
  }
}
