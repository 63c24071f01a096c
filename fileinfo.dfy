/**
 * File attributes of fileinfo.c: the record file_info_get keeps for one
 * file, the projection of one attribute out of it by field char, the ls-style
 * permission string, the dirname of a path and the typed getters.
 *
 * lstat, readlink, realpath, the mount table and the user/group name lookups
 * are I/O: their results are inputs (a Stat record and an Env).
 */
module FileInfo {
  import opened Wrappers
  import opened Words
  import Fs

  /** PATH_MAX. */
  const PathMax: nat := 4096

  /** st_mode bits. */
  const SetUid: nat := 0x800
  const SetGid: nat := 0x400
  const Sticky: nat := 0x200
  const ExecUser: nat := 0x40
  const ExecGroup: nat := 0x8
  const ExecOther: nat := 0x1
  const TypeMask: nat := 0xF000
  const TypeLink: nat := 0xA000

  /** FileAttrFlags. */
  const FlagString: bv32 := 1
  const FlagInteger: bv32 := 2
  const FlagHeap: bv32 := 4
  const FlagTime: bv32 := 8

  /** Whether bit b (a power of two) is set in mode. */
  predicate HasBit(mode: nat, b: nat)
    requires b > 0
  {
    (mode / b) % 2 == 1
  }

  /** The stat fields the attributes are read from. */
  datatype Stat = Stat(
    mode: nat, uid: nat, gid: nat, dev: nat, ino: nat, nlink: nat,
    size: nat, blksize: nat, blocks: nat, atime: int, ctime: int, mtime: int)

  /** FileInfo without its lazily loaded mount map (see Env). */
  datatype Info = Info(cli: string, path: string, sb: Stat)

  /**
   * What the outside world answers for one file: the group and user names,
   * the sorted mounts of a loaded mount map (None when the mount table could
   * not be read), the resolved path (None when realpath fails) and the target
   * of a symbolic link.
   */
  datatype Env = Env(group: string, user: string, mounts: Option<seq<Fs.MountPoint>>, resolved: Option<string>, link: string)

  /** A FileAttr: the flags word is determined by the kind of value held. */
  datatype FileAttr =
    | StrAttr(heap: bool, s: string)
    | IntAttr(n: Int32)
    | TimeAttr(t: int)

  function Flags(a: FileAttr): (f: bv32)
    ensures f & (FlagString | FlagInteger | FlagTime) != 0
  {
    match a
    case StrAttr(heap, _) => if heap then FlagString | FlagHeap else FlagString
    case IntAttr(_) => FlagInteger
    case TimeAttr(_) => FlagTime
  }

  /** file_info_get: succeeds when the stat call succeeds and both names fit PATH_MAX. */
  function Get(cli: string, path: string, st: Option<Stat>): (r: Option<Info>)
    ensures r.Some? <==> st.Some? && |cli| < PathMax && |path| < PathMax
    ensures r.Some? ==> r.value == Info(cli, path, st.value)
  {
    if st.Some? && |cli| < PathMax && |path| < PathMax then Some(Info(cli, path, st.value)) else None
  }

  // ---------------------------------------------------------------- dirname

  /** strrchr(s, '/'). */
  function LastSlash(s: string): (r: Option<nat>)
    ensures r.Some? ==> r.value < |s| && s[r.value] == '/' && '/' !in s[r.value + 1..]
    ensures r.None? <==> '/' !in s
  {
    if s == [] then None
    else if s[|s| - 1] == '/' then Some(|s| - 1)
    else
      var r := LastSlash(s[..|s| - 1]);
      assert s == s[..|s| - 1] + [s[|s| - 1]];
      assert r.Some? ==> s[r.value + 1..] == s[..|s| - 1][r.value + 1..] + [s[|s| - 1]];
      r
  }

  /** _file_info_get_dirname_r: the path up to its last '/', or "." when it has none. */
  function Dirname(path: string): string
  {
    match LastSlash(path)
    case None => "."
    case Some(i) => path[..i]
  }

  /** basename(3) as string.h declares it under _GNU_SOURCE: the part after the last '/'. */
  function Basename(path: string): string
  {
    match LastSlash(path)
    case None => path
    case Some(i) => path[i + 1..]
  }

  /** The dirname, a '/', and a basename free of '/' make up the path again. */
  lemma DirnameBasenameSplit(path: string)
    ensures '/' !in Basename(path)
    ensures '/' in path ==> Dirname(path) + "/" + Basename(path) == path
    ensures '/' !in path ==> Dirname(path) == "." && Basename(path) == path
  {
    match LastSlash(path)
    case None =>
    case Some(i) =>
      assert path == path[..i] + [path[i]] + path[i + 1..];
  }

  // ------------------------------------------------------------ permissions

  /** The rwx table: entry t spells the three permission bits of t. */
  const Rwx: seq<string> := ["---", "--x", "-w-", "-wx", "r--", "r-x", "rw-", "rwx"]

  /**
   * The symbolic permission char at position k (0..8) as ls prints it: the
   * owner, group and other triples, with the setuid, setgid and sticky bits
   * shown in the execute position of their triple.
   */
  function PermissionChar(mode: nat, k: nat): char
    requires k < 9
  {
    var shift := if k < 3 then 64 else if k < 6 then 8 else 1;
    var bit := if k % 3 == 0 then 4 else if k % 3 == 1 then 2 else 1;
    var plain := if HasBit(mode / shift % 8, bit) then "rwx"[k % 3] else '-';
    if k == 2 && HasBit(mode, SetUid) then (if HasBit(mode, ExecUser) then 's' else 'S')
    else if k == 5 && HasBit(mode, SetGid) then (if HasBit(mode, ExecGroup) then 's' else 'l')
    else if k == 8 && HasBit(mode, Sticky) then (if HasBit(mode, ExecOther) then 't' else 'T')
    else plain
  }

  /** The permission string, position by position. */
  function SymbolicMode(mode: nat): (r: string)
    ensures |r| == 9 && forall k :: 0 <= k < 9 ==> r[k] == PermissionChar(mode, k)
  {
    seq(9, k requires 0 <= k < 9 => PermissionChar(mode, k))
  }

  /** Table entry t agrees with the bits of t. */
  lemma RwxEntry(t: nat, j: nat)
    requires t < 8 && j < 3
    ensures |Rwx[t]| == 3
    ensures Rwx[t][j] == if HasBit(t, if j == 0 then 4 else if j == 1 then 2 else 1) then "rwx"[j] else '-'
  {
  }

  /**
   * The table-driven permission string of _file_info_permissions: the three
   * octal digits looked up in Rwx, then the setuid, setgid and sticky chars
   * written over it, the setuid char at index setuidAt.
   */
  function TablePermissions(mode: nat, setuidAt: nat): (r: string)
    requires setuidAt < 9
    ensures |r| == 9
  {
    var base := Rwx[mode / 64 % 8] + Rwx[mode / 8 % 8] + Rwx[mode % 8];
    var u := if HasBit(mode, SetUid) then base[setuidAt := if HasBit(mode, ExecUser) then 's' else 'S'] else base;
    var g := if HasBit(mode, SetGid) then u[5 := if HasBit(mode, ExecGroup) then 's' else 'l'] else u;
    if HasBit(mode, Sticky) then g[8 := if HasBit(mode, ExecOther) then 't' else 'T'] else g
  }

  /** _file_info_permissions as written: the setuid char lands on index 3, the group read position. */
  function PermissionsAsWritten(mode: nat): string
  {
    TablePermissions(mode, 3)
  }

  /** The concatenated table entries spell the plain rwx chars of the three octal digits. */
  lemma TableBaseAt(mode: nat, k: nat)
    requires k < 9
    ensures var base := Rwx[mode / 64 % 8] + Rwx[mode / 8 % 8] + Rwx[mode % 8];
      var shift := if k < 3 then 64 else if k < 6 then 8 else 1;
      var bit := if k % 3 == 0 then 4 else if k % 3 == 1 then 2 else 1;
      |base| == 9 && base[k] == if HasBit(mode / shift % 8, bit) then "rwx"[k % 3] else '-'
  {
    var a, b, c := mode / 64 % 8, mode / 8 % 8, mode % 8;
    RwxEntry(a, 0);
    RwxEntry(b, 0);
    RwxEntry(c, 0);
    if k < 3 {
      assert (Rwx[a] + Rwx[b] + Rwx[c])[k] == Rwx[a][k];
      RwxEntry(a, k);
    } else if k < 6 {
      assert (Rwx[a] + Rwx[b] + Rwx[c])[k] == Rwx[b][k - 3];
      RwxEntry(b, k - 3);
    } else {
      assert (Rwx[a] + Rwx[b] + Rwx[c])[k] == Rwx[c][k - 6];
      RwxEntry(c, k - 6);
    }
  }

  /** Position k of the table-driven string: a special char where one is written, else the table's char. */
  lemma TablePermissionsAt(mode: nat, setuidAt: nat, k: nat)
    requires setuidAt < 9 && k < 9 && setuidAt != 5 && setuidAt != 8
    ensures var base := Rwx[mode / 64 % 8] + Rwx[mode / 8 % 8] + Rwx[mode % 8];
      TablePermissions(mode, setuidAt)[k] ==
        if k == setuidAt && HasBit(mode, SetUid) then (if HasBit(mode, ExecUser) then 's' else 'S')
        else if k == 5 && HasBit(mode, SetGid) then (if HasBit(mode, ExecGroup) then 's' else 'l')
        else if k == 8 && HasBit(mode, Sticky) then (if HasBit(mode, ExecOther) then 't' else 'T')
        else base[k]
  {
    TableBaseAt(mode, 0);
  }

  /** With the setuid char at index 2, the table-driven string is the symbolic mode. */
  lemma TablePermissionsAreSymbolic(mode: nat)
    ensures TablePermissions(mode, 2) == SymbolicMode(mode)
  {
    var r := TablePermissions(mode, 2);
    forall k | 0 <= k < 9
      ensures r[k] == PermissionChar(mode, k)
    {
      TablePermissionsAt(mode, 2, k);
      TableBaseAt(mode, k);
    }
  }

  /** Mode 4755 (setuid, rwxr-xr-x): the code as written prints "rwxs-xr-x" instead of "rwsr-xr-x". */
  lemma SetUidLandsOnGroupRead()
    ensures PermissionsAsWritten(0x9ED) == "rwxs-xr-x"
    ensures SymbolicMode(0x9ED) == "rwsr-xr-x"
  {
    assert SymbolicMode(0x9ED) == seq(9, k requires 0 <= k < 9 => PermissionChar(0x9ED, k));
  }

  /** Copies a table entry into bits[at..at + 3] and the terminating NUL after it, as strcpy does. */
  method CopyTriple(bits: array<char>, at: nat, t: string)
    requires |t| == 3 && at + 4 <= bits.Length
    modifies bits
    ensures bits[..] == old(bits[..])[at := t[0]][at + 1 := t[1]][at + 2 := t[2]][at + 3 := '\0']
  {
    bits[at] := t[0];
    bits[at + 1] := t[1];
    bits[at + 2] := t[2];
    bits[at + 3] := '\0';
  }

  /** The setuid, setgid and sticky chars written over the copied table entries. */
  method SetSpecialChars(bits: array<char>, mode: nat)
    requires bits.Length >= 9 && bits[..9] == Rwx[mode / 64 % 8] + Rwx[mode / 8 % 8] + Rwx[mode % 8]
    modifies bits
    ensures bits[..9] == TablePermissions(mode, 2)
  {
    ghost var t := bits[..9];
    if HasBit(mode, SetUid) {
      bits[2] := if HasBit(mode, ExecUser) then 's' else 'S';
      t := t[2 := bits[2]];
      assert bits[..9] == t;
    }
    if HasBit(mode, SetGid) {
      bits[5] := if HasBit(mode, ExecGroup) then 's' else 'l';
      t := t[5 := bits[5]];
      assert bits[..9] == t;
    }
    if HasBit(mode, Sticky) {
      bits[8] := if HasBit(mode, ExecOther) then 't' else 'T';
      t := t[8 := bits[8]];
      assert bits[..9] == t;
    }
  }

  /** _file_info_permissions with the setuid char in the owner's execute position. */
  method Permissions(mode: nat) returns (r: string)
    ensures r == SymbolicMode(mode)
  {
    var owner, group, other := Rwx[mode / 64 % 8], Rwx[mode / 8 % 8], Rwx[mode % 8];
    RwxEntry(mode / 64 % 8, 0);
    RwxEntry(mode / 8 % 8, 0);
    RwxEntry(mode % 8, 0);
    var bits := new char[10](_ => '\0');
    CopyTriple(bits, 0, owner);
    CopyTriple(bits, 3, group);
    CopyTriple(bits, 6, other);
    assert bits[..9] == owner + group + other;
    SetSpecialChars(bits, mode);
    r := bits[..9];
    TablePermissionsAreSymbolic(mode);
  }

  /** Without special bits the permission string is the three table entries of the octal digits. */
  lemma PlainModeIsOctalDigits(mode: nat)
    requires !HasBit(mode, SetUid) && !HasBit(mode, SetGid) && !HasBit(mode, Sticky)
    ensures SymbolicMode(mode) == Rwx[mode / 64 % 8] + Rwx[mode / 8 % 8] + Rwx[mode % 8]
  {
    var a, b, c := Rwx[mode / 64 % 8], Rwx[mode / 8 % 8], Rwx[mode % 8];
    RwxEntry(mode / 64 % 8, 0);
    RwxEntry(mode / 8 % 8, 0);
    RwxEntry(mode % 8, 0);
    var r := a + b + c;
    forall k | 0 <= k < 9
      ensures r[k] == PermissionChar(mode, k)
    {
      if k < 3 {
        RwxEntry(mode / 64 % 8, k);
        assert r[k] == a[k];
      } else if k < 6 {
        RwxEntry(mode / 8 % 8, k - 3);
        assert r[k] == b[k - 3];
      } else {
        RwxEntry(mode % 8, k - 6);
        assert r[k] == c[k - 6];
      }
    }
  }

  // ------------------------------------------------------------- attributes

  /** The field chars file_info_get_attr knows. */
  const Fields: string := "fPphHguFlbDGiknsSUAaCcTtmM"

  /** The outcome of file_info_get_attr; Undefined is the division by zero of 'S' on an empty file. */
  datatype AttrResult = Found(attr: FileAttr) | NoSuchField | Undefined

  function IntOf(x: int): FileAttr
  {
    IntAttr(Wrap32(x))
  }

  /** file_info_get_attr over a Stat record and the answers of the outside world. */
  function GetAttr(info: Info, field: char, env: Env): (r: AttrResult)
    ensures r == NoSuchField <==> FieldKind(field) == NoKind
    ensures r == Undefined <==> field == 'S' && info.sb.size == 0
  {
    var sb := info.sb;
    match field
    case 'f' => Found(StrAttr(false, Basename(info.path)))
    case 'P' => Found(StrAttr(false, if |info.cli| < |info.path| then info.path[|info.cli| + 1..] else ""))
    case 'p' => Found(StrAttr(false, info.path))
    case 'h' => Found(StrAttr(true, Dirname(info.path)))
    case 'H' => Found(StrAttr(false, info.cli))
    case 'g' => Found(StrAttr(true, env.group))
    case 'u' => Found(StrAttr(true, env.user))
    case 'F' =>
      Found(StrAttr(false, match env.mounts
        case None => ""
        case Some(mps) => Fs.PathFs(mps, env.resolved)))
    case 'l' => Found(StrAttr(false, if sb.mode % 0x10000 / 0x1000 * 0x1000 == TypeLink then env.link else ""))
    case 'b' => Found(IntOf(sb.blocks))
    case 'D' => Found(IntOf(sb.dev))
    case 'G' => Found(IntOf(sb.gid))
    case 'i' => Found(IntOf(sb.ino))
    case 'k' => Found(IntOf(sb.size / 1024))
    case 'n' => Found(IntOf(sb.nlink))
    case 's' => Found(IntOf(sb.size))
    case 'S' => if sb.size == 0 then Undefined else Found(IntOf(sb.blksize * sb.blocks / sb.size))
    case 'U' => Found(IntOf(sb.uid))
    case 'A' => Found(TimeAttr(sb.atime))
    case 'a' => Found(TimeAttr(sb.atime))
    case 'C' => Found(TimeAttr(sb.ctime))
    case 'c' => Found(TimeAttr(sb.ctime))
    case 'T' => Found(TimeAttr(sb.mtime))
    case 't' => Found(TimeAttr(sb.mtime))
    case 'm' => Found(IntOf(sb.mode % 512))
    case 'M' => Found(StrAttr(false, SymbolicMode(sb.mode)))
    case _ => NoSuchField
  }

  /** file_attr_get_string: the string, or NULL when the attribute holds none. */
  function GetString(a: FileAttr): (r: Option<string>)
    ensures r.Some? <==> Flags(a) & FlagString != 0
    ensures r.Some? ==> a == StrAttr(a.heap, r.value)
  {
    if Flags(a) & FlagString != 0 then Some(a.s) else None
  }

  /** file_attr_get_integer: the integer, or 0 when the attribute holds none. */
  function GetInteger(a: FileAttr): (r: Int32)
    ensures Flags(a) & FlagInteger != 0 ==> a == IntAttr(r)
    ensures Flags(a) & FlagInteger == 0 ==> r == 0
  {
    if Flags(a) & FlagInteger != 0 then a.n else 0
  }

  /** file_attr_get_time as intended: the time value, or 0 when the attribute holds none. */
  function GetTime(a: FileAttr): (r: int)
    ensures Flags(a) & FlagTime != 0 ==> a == TimeAttr(r)
    ensures Flags(a) & FlagTime == 0 ==> r == 0
  {
    if Flags(a) & FlagTime != 0 then a.t else 0
  }

  /**
   * file_attr_get_time as written: it returns the union's int member, the
   * low 32 bits of the time_t read as a signed int on a little-endian target.
   */
  function GetTimeAsWritten(a: FileAttr): Int32
  {
    if Flags(a) & FlagTime != 0 then Wrap32(a.t) else 0
  }

  /** A modification time in January 2038 comes back negative from the getter as written. */
  lemma TimeTruncatedTo32Bits()
    ensures GetTimeAsWritten(TimeAttr(0x8000_0000)) == -0x8000_0000
    ensures GetTime(TimeAttr(0x8000_0000)) == 0x8000_0000
  {
  }

  /** file_attr_free releases exactly the heap-allocated strings. */
  predicate Frees(a: FileAttr)
  {
    Flags(a) & FlagString != 0 && Flags(a) & FlagHeap != 0
  }

  /** The kind of value a field char stands for. */
  datatype Kind = StringKind | IntegerKind | TimeKind | NoKind

  function FieldKind(c: char): Kind
  {
    match c
    case 'f' | 'P' | 'p' | 'h' | 'H' | 'g' | 'u' | 'F' | 'l' | 'M' => StringKind
    case 'b' | 'D' | 'G' | 'i' | 'k' | 'n' | 's' | 'S' | 'U' | 'm' => IntegerKind
    case 'A' | 'a' | 'C' | 'c' | 'T' | 't' => TimeKind
    case _ => NoKind
  }

  /** Unknown field chars fail; each known one yields a value of the kind its field promises. */
  lemma GetAttrKinds(info: Info, field: char, env: Env)
    ensures GetAttr(info, field, env) == NoSuchField <==> FieldKind(field) == NoKind
    ensures GetAttr(info, field, env) == Undefined <==> field == 'S' && info.sb.size == 0
    ensures GetAttr(info, field, env).Found? ==>
      var a := GetAttr(info, field, env).attr;
      (GetString(a).Some? <==> FieldKind(field) == StringKind) &&
      (Flags(a) & FlagInteger != 0 <==> FieldKind(field) == IntegerKind) &&
      (Flags(a) & FlagTime != 0 <==> FieldKind(field) == TimeKind) &&
      (Frees(a) <==> field == 'h' || field == 'g' || field == 'u')
  {
  }

  /** The octal digits of the low nine mode bits. */
  lemma OctalDigits(mode: nat)
    ensures mode % 512 / 64 == mode / 64 % 8
    ensures mode % 512 / 8 % 8 == mode / 8 % 8
    ensures mode % 512 % 8 == mode % 8
  {
    var q, r := mode / 512, mode % 512;
    assert mode == 512 * q + r;
    assert mode / 64 == 8 * q + r / 64;
    assert mode / 8 == 64 * q + r / 8;
    assert mode % 8 == r % 8;
  }

  /** 'm' is the octal permission value and 'M' spells the same nine bits. */
  lemma ModeFieldsAgree(info: Info, env: Env)
    requires !HasBit(info.sb.mode, SetUid) && !HasBit(info.sb.mode, SetGid) && !HasBit(info.sb.mode, Sticky)
    ensures var m := GetInteger(GetAttr(info, 'm', env).attr);
      0 <= m < 512 && GetString(GetAttr(info, 'M', env).attr) == Some(Rwx[m / 64] + Rwx[m / 8 % 8] + Rwx[m % 8])
  {
    var mode := info.sb.mode;
    PlainModeIsOctalDigits(mode);
    OctalDigits(mode);
  }

  /** 'P' of a file found under the argument is its path relative to the argument. */
  lemma RelativePath(cli: string, rest: string, sb: Stat, env: Env)
    requires rest != []
    ensures GetAttr(Info(cli, cli + "/" + rest, sb), 'P', env) == Found(StrAttr(false, rest))
  {
    assert (cli + "/" + rest)[|cli| + 1..] == rest;
  }

  /** 'h' and 'f' split the path at its last '/'. */
  lemma DirectoryAndName(info: Info, env: Env)
    requires '/' in info.path
    ensures GetString(GetAttr(info, 'h', env).attr).value + "/" + GetString(GetAttr(info, 'f', env).attr).value == info.path
  {
    DirnameBasenameSplit(info.path);
  }

  /** 'k' and 's' of a file below 2 GiB: the size and the size in whole kilobytes. */
  lemma SizeFields(info: Info, env: Env)
    requires info.sb.size <= Int32Max
    ensures GetInteger(GetAttr(info, 's', env).attr) == info.sb.size
    ensures var k := GetInteger(GetAttr(info, 'k', env).attr);
      k * 1024 <= info.sb.size < (k + 1) * 1024
  {
  }
}
