/**
 * The mount-point map of fs.c: the mounts read from the mount table, their
 * names truncated to the fixed buffers, sorted by path in descending strcmp
 * order, and the search for the filesystem a resolved path lies on.
 *
 * Reading /proc/mounts (setmntent/getmntent) and realpath are I/O: the
 * entries the mount table yields and the resolved path are parameters.
 */
module Fs {
  import opened Wrappers

  /** FS_UNKNOWN. */
  const Unknown: string := "Unknown"

  /** FS_NAME_MAX: a filesystem name keeps at most 15 chars. */
  const FsNameMax: nat := 16

  /** PATH_MAX: a mount path keeps at most 4095 chars. */
  const PathMax: nat := 4096

  /** The initial capacity of the mount array. */
  const InitialSize: nat := 32

  /** MountPoint. */
  datatype MountPoint = MountPoint(fs: string, path: string)

  /** The two fields of a struct mntent that are kept. */
  datatype MountEntry = MountEntry(mntType: string, mntDir: string)

  /** strncpy into a buffer of n chars whose last char is then set to NUL. */
  function Truncate(s: string, n: nat): (r: string)
    requires n >= 1
    ensures |r| <= n - 1 && |r| <= |s| && r == s[..|r|]
    ensures |s| < n ==> r == s
  {
    if |s| < n then s else s[..n - 1]
  }

  function MountOf(e: MountEntry): MountPoint
  {
    MountPoint(Truncate(e.mntType, FsNameMax), Truncate(e.mntDir, PathMax))
  }

  function MountsOf(es: seq<MountEntry>): (r: seq<MountPoint>)
    ensures |r| == |es| && forall k :: 0 <= k < |es| ==> r[k] == MountOf(es[k])
  {
    if es == [] then [] else MountsOf(es[..|es| - 1]) + [MountOf(es[|es| - 1])]
  }

  lemma MountsOfSnoc(es: seq<MountEntry>, i: nat)
    requires i < |es|
    ensures MountsOf(es[..i + 1]) == MountsOf(es[..i]) + [MountOf(es[i])]
  {
    assert es[..i + 1][..i] == es[..i];
  }

  /** strcmp(a, b) < 0 on strings without NUL. */
  predicate StrLess(a: string, b: string)
  {
    if a == [] then b != []
    else if b == [] then false
    else if a[0] != b[0] then a[0] < b[0]
    else StrLess(a[1..], b[1..])
  }

  lemma {:induction false} StrLessIrreflexive(a: string)
    ensures !StrLess(a, a)
    decreases |a|
  {
    if a != [] {
      StrLessIrreflexive(a[1..]);
    }
  }

  lemma {:induction false} StrLessTrans(a: string, b: string, c: string)
    requires StrLess(a, b) && StrLess(b, c)
    ensures StrLess(a, c)
    decreases |a|
  {
    if a != [] && b != [] && c != [] && a[0] == b[0] && b[0] == c[0] {
      StrLessTrans(a[1..], b[1..], c[1..]);
    }
  }

  lemma {:induction false} StrLessTotal(a: string, b: string)
    ensures a == b || StrLess(a, b) || StrLess(b, a)
    decreases |a|
  {
    if a != [] && b != [] && a[0] == b[0] {
      StrLessTotal(a[1..], b[1..]);
      if a[1..] == b[1..] {
        assert a == [a[0]] + a[1..] && b == [b[0]] + b[1..];
      }
    }
  }

  lemma {:induction false} StrLessAsym(a: string, b: string)
    requires StrLess(a, b)
    ensures !StrLess(b, a)
  {
    if StrLess(b, a) {
      StrLessTrans(a, b, a);
      StrLessIrreflexive(a);
    }
  }

  /** A proper prefix sorts first. */
  lemma {:induction false} ProperPrefixLess(a: string, b: string)
    requires |a| < |b| && a == b[..|a|]
    ensures StrLess(a, b)
    decreases |a|
  {
    if a != [] {
      assert a[1..] == b[1..][..|a| - 1];
      ProperPrefixLess(a[1..], b[1..]);
    }
  }

  /** _fs_map_compare_entries as qsort uses it: no mount path is below a later one. */
  predicate Descending(s: seq<MountPoint>)
  {
    forall i, j :: 0 <= i < j < |s| ==> !StrLess(s[i].path, s[j].path)
  }

  /** Inserts m before the first mount whose path is below its own. */
  function InsertDescending(m: MountPoint, s: seq<MountPoint>): (r: seq<MountPoint>)
    ensures |r| == |s| + 1 && multiset(r) == multiset(s) + multiset{m}
  {
    if s == [] then [m]
    else if StrLess(s[0].path, m.path) then [m] + s
    else
      assert s == [s[0]] + s[1..];
      [s[0]] + InsertDescending(m, s[1..])
  }

  /**
   * The order qsort leaves the mounts in. qsort is not stable; mounts with
   * equal paths are kept here in the order the mount table lists them.
   */
  function SortDescending(s: seq<MountPoint>): (r: seq<MountPoint>)
    ensures |r| == |s| && multiset(r) == multiset(s)
  {
    if s == [] then []
    else
      assert s == s[..|s| - 1] + [s[|s| - 1]];
      InsertDescending(s[|s| - 1], SortDescending(s[..|s| - 1]))
  }

  /** strcmp(a, b) >= 0. */
  predicate NotBelow(a: string, b: string)
  {
    !StrLess(a, b)
  }

  lemma NotBelowTrans(a: string, b: string, c: string)
    requires NotBelow(a, b) && NotBelow(b, c)
    ensures NotBelow(a, c)
  {
    if StrLess(a, c) {
      StrLessTotal(a, b);
      if a != b {
        StrLessTrans(b, a, c);
      }
    }
  }

  /** No mount path in s is above p. */
  predicate AllNotAbove(p: string, s: seq<MountPoint>)
  {
    forall k :: 0 <= k < |s| ==> NotBelow(p, s[k].path)
  }

  lemma {:induction false} InsertBounded(p: string, m: MountPoint, s: seq<MountPoint>)
    requires AllNotAbove(p, s) && NotBelow(p, m.path)
    ensures AllNotAbove(p, InsertDescending(m, s))
    decreases |s|
  {
    if s != [] && !StrLess(s[0].path, m.path) {
      InsertBounded(p, m, s[1..]);
      assert InsertDescending(m, s) == [s[0]] + InsertDescending(m, s[1..]);
    }
  }

  lemma ConsDescending(m: MountPoint, s: seq<MountPoint>)
    requires Descending(s) && AllNotAbove(m.path, s)
    ensures Descending([m] + s)
  {
    var r := [m] + s;
    forall i, j | 0 <= i < j < |r|
      ensures NotBelow(r[i].path, r[j].path)
    {
      if i > 0 {
        assert r[i] == s[i - 1] && r[j] == s[j - 1];
      }
    }
  }

  lemma {:induction false} InsertKeepsDescending(m: MountPoint, s: seq<MountPoint>)
    requires Descending(s)
    ensures Descending(InsertDescending(m, s))
    decreases |s|
  {
    if s == [] {
    } else if StrLess(s[0].path, m.path) {
      StrLessAsym(s[0].path, m.path);
      forall k | 0 <= k < |s|
        ensures NotBelow(m.path, s[k].path)
      {
        if k > 0 {
          NotBelowTrans(m.path, s[0].path, s[k].path);
        } else {
          StrLessAsym(s[0].path, m.path);
        }
      }
      ConsDescending(m, s);
    } else {
      InsertKeepsDescending(m, s[1..]);
      assert AllNotAbove(s[0].path, s[1..]) by {
        forall k | 0 <= k < |s[1..]|
          ensures NotBelow(s[0].path, s[1..][k].path)
        {
          assert s[1..][k] == s[k + 1];
        }
      }
      InsertBounded(s[0].path, m, s[1..]);
      ConsDescending(s[0], InsertDescending(m, s[1..]));
    }
  }

  /** The sorted mounts are in descending path order. */
  lemma {:induction false} SortIsDescending(s: seq<MountPoint>)
    ensures Descending(SortDescending(s))
    decreases |s|
  {
    if s != [] {
      SortIsDescending(s[..|s| - 1]);
      InsertKeepsDescending(s[|s| - 1], SortDescending(s[..|s| - 1]));
    }
  }

  /** The capacity of the mount array after n entries: it doubles when the entry count reaches capacity - 1. */
  function GrownSize(n: nat): nat
  {
    if n == 0 then InitialSize
    else
      var s := GrownSize(n - 1);
      if n - 1 == s - 1 then 2 * s else s
  }

  /** The array always has room for one more entry, and is at most twice the entry count once it has grown. */
  lemma {:induction false} GrownSizeBounds(n: nat)
    ensures n < GrownSize(n)
    ensures GrownSize(n) == InitialSize || GrownSize(n) <= 2 * n
  {
    if n > 0 {
      GrownSizeBounds(n - 1);
    }
  }

  /** The index of the first mount whose path is a char prefix of f. */
  function FirstMatch(mps: seq<MountPoint>, f: string): (r: Option<nat>)
    ensures r.Some? ==> r.value < |mps|
  {
    if mps == [] then None
    else if |mps[0].path| <= |f| && mps[0].path == f[..|mps[0].path|] then Some(0)
    else match FirstMatch(mps[1..], f)
      case None => None
      case Some(k) => Some(k + 1)
  }

  predicate IsPrefix(p: string, f: string)
  {
    |p| <= |f| && p == f[..|p|]
  }

  /** FirstMatch finds the first prefix, and only finds none when there is none. */
  lemma {:induction false} FirstMatchIsFirst(mps: seq<MountPoint>, f: string)
    ensures FirstMatch(mps, f).Some? ==> IsPrefix(mps[FirstMatch(mps, f).value].path, f)
    ensures FirstMatch(mps, f).Some? ==> forall j :: 0 <= j < FirstMatch(mps, f).value ==> !IsPrefix(mps[j].path, f)
    ensures FirstMatch(mps, f).None? ==> forall j :: 0 <= j < |mps| ==> !IsPrefix(mps[j].path, f)
    decreases |mps|
  {
    if mps != [] && !IsPrefix(mps[0].path, f) {
      FirstMatchIsFirst(mps[1..], f);
      assert forall j :: 0 < j < |mps| ==> mps[j] == mps[1..][j - 1];
    }
  }

  /** fs_map_path on a loaded map: the first mount whose path is a prefix of the resolved path; Unknown when none is or the path does not resolve. */
  function PathFs(mps: seq<MountPoint>, resolved: Option<string>): string
  {
    match resolved
    case None => Unknown
    case Some(f) =>
      match FirstMatch(mps, f)
      case None => Unknown
      case Some(i) => mps[i].fs
  }

  /** In descending order the first prefix found is the longest mount path that is a prefix. */
  lemma {:induction false} FirstMatchIsLongest(mps: seq<MountPoint>, f: string)
    requires Descending(mps) && FirstMatch(mps, f).Some?
    ensures forall j :: 0 <= j < |mps| && IsPrefix(mps[j].path, f) ==> |mps[j].path| <= |mps[FirstMatch(mps, f).value].path|
  {
    FirstMatchIsFirst(mps, f);
    var i := FirstMatch(mps, f).value;
    forall j | 0 <= j < |mps| && IsPrefix(mps[j].path, f)
      ensures |mps[j].path| <= |mps[i].path|
    {
      if |mps[j].path| > |mps[i].path| {
        assert i < j;
        assert mps[i].path == mps[j].path[..|mps[i].path|];
        ProperPrefixLess(mps[i].path, mps[j].path);
      }
    }
  }

  /** On a loaded map the mount found for a path is the longest mount path that is a prefix of it. */
  lemma LoadedMapFindsLongest(es: seq<MountEntry>, f: string)
    requires FirstMatch(SortDescending(MountsOf(es)), f).Some?
    ensures var mps := SortDescending(MountsOf(es));
      forall j :: 0 <= j < |mps| && IsPrefix(mps[j].path, f) ==> |mps[j].path| <= |mps[FirstMatch(mps, f).value].path|
  {
    SortIsDescending(MountsOf(es));
    FirstMatchIsLongest(SortDescending(MountsOf(es)), f);
  }

  /** The prefix need not end at a '/': "/home" is the mount of "/homework/a". */
  lemma PrefixIgnoresSeparators()
    ensures PathFs([MountPoint("ext4", "/home"), MountPoint("xfs", "/")], Some("/homework/a")) == "ext4"
  {
    assert "/homework/a"[..5] == "/home";
  }

  /** FSMap: the mount array, its capacity and the number of entries. */
  class FSMap {
    var mps: array<MountPoint>
    var size: nat
    var len: nat

    predicate Valid()
      reads this, mps
    {
      mps.Length == size && len < size
    }

    function Mounts(): seq<MountPoint>
      reads this, mps
      requires Valid()
    {
      mps[..len]
    }

    constructor ()
      ensures Valid() && fresh(mps) && size == InitialSize && len == 0
    {
      mps := new MountPoint[InitialSize];
      size := InitialSize;
      len := 0;
    }

    /** Appends one entry, doubling the array first when it is full but for one slot. */
    method Append(e: MountEntry)
      requires Valid()
      modifies this, mps
      ensures Valid() && (fresh(mps) || mps == old(mps))
      ensures Mounts() == old(Mounts()) + [MountOf(e)]
      ensures size == (if old(len) == old(size) - 1 then 2 * old(size) else old(size))
    {
      if len == size - 1 {
        var grown := new MountPoint[2 * size];
        var k := 0;
        while k < len
          invariant 0 <= k <= len && grown[..k] == mps[..k]
          modifies grown
        {
          grown[k] := mps[k];
          k := k + 1;
        }
        mps := grown;
        size := 2 * size;
      }
      mps[len] := MountOf(e);
      len := len + 1;
    }

    /** The qsort call: the entries in descending path order. */
    method Sort()
      requires Valid()
      modifies mps
      ensures Valid() && Mounts() == SortDescending(old(Mounts()))
    {
      var sorted := SortDescending(mps[..len]);
      CopyInto(mps, sorted);
    }

    /** Writes s over the first |s| slots of a, one slot at a time. */
    static method CopyInto(a: array<MountPoint>, s: seq<MountPoint>)
      requires |s| <= a.Length
      modifies a
      ensures a[..|s|] == s
    {
      var k := 0;
      while k < |s|
        invariant 0 <= k <= |s| && a[..k] == s[..k]
      {
        a[k] := s[k];
        k := k + 1;
      }
    }

    /** The getmntent loop of fs_map_load: one fs_map_add per entry, in table order. */
    static method AddAll(es: seq<MountEntry>) returns (m: FSMap)
      ensures fresh(m) && fresh(m.mps) && m.Valid() && m.size == GrownSize(|es|)
      ensures m.Mounts() == MountsOf(es)
    {
      m := new FSMap();
      var i := 0;
      while i < |es|
        invariant 0 <= i <= |es| && fresh(m) && fresh(m.mps) && m.Valid()
        invariant m.Mounts() == MountsOf(es[..i]) && m.size == GrownSize(i) && m.len == i
      {
        MountsOfSnoc(es, i);
        m.Append(es[i]);
        i := i + 1;
      }
      assert es[..|es|] == es;
    }

    /** fs_map_load over the entries the mount table yields; null when the table cannot be opened. */
    static method Load(table: Option<seq<MountEntry>>) returns (m: FSMap?)
      ensures table.None? <==> m == null
      ensures m != null ==> fresh(m) && m.Valid() && m.size == GrownSize(|table.value|)
      ensures m != null ==> m.Mounts() == SortDescending(MountsOf(table.value))
    {
      if table.None? {
        return null;
      }
      m := AddAll(table.value);
      if m.len > 0 {
        m.Sort();
      } else {
        assert m.Mounts() == [] == SortDescending([]);
      }
    }

    /** fs_map_path: the loop over the sorted mounts. */
    method MapPath(resolved: Option<string>) returns (fs: string)
      requires Valid()
      ensures fs == PathFs(Mounts(), resolved)
    {
      if resolved.None? {
        return Unknown;
      }
      var f := resolved.value;
      var i := 0;
      while i < len
        invariant 0 <= i <= len
        invariant FirstMatch(mps[..len], f) == (match FirstMatch(mps[i..len], f) case None => None case Some(k) => Some(k + i))
      {
        var p := mps[i].path;
        assert mps[i..len][0] == mps[i] && mps[i..len][1..] == mps[i + 1..len];
        if |p| <= |f| && p == f[..|p|] {
          return mps[i].fs;
        }
        i := i + 1;
      }
      return Unknown;
    }
  }
}
