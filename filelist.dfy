/**
 * The sortable file list of filelist.c: the sort string ("order by") that
 * names the attributes to sort on, each optionally preceded by '-' for
 * descending order; the growable array of file entries; and the comparator
 * that orders two entries field by field.
 *
 * file_attr_compare, which compares two attributes of the same field, is not
 * part of this model: the comparator takes it as a parameter.
 */
module FileList {
  import opened Wrappers
  import opened Words
  import FI = FileInfo

  /** SORTABLE_FIELDS. */
  const SortableFields: string := "bfgGhiklmMnpsSuUyYpPHFDaAcCtT"

  /** The initial capacity of the entry array. */
  const InitialSize: nat := 512

  /** One field of a sort string and its direction. */
  datatype SortKey = SortKey(field: char, asc: bool)

  /**
   * The fields a sort string names: spaces are skipped, and each field is an
   * optional '-' followed by one sortable field char. None when the string
   * holds anything else, or ends in '-'.
   */
  function SortKeys(s: string): Option<seq<SortKey>>
  {
    if s == [] then Some([])
    else if s[0] == ' ' then SortKeys(s[1..])
    else
      var asc := s[0] != '-';
      var t := if asc then s else s[1..];
      if t != [] && t[0] in SortableFields then
        match SortKeys(t[1..])
        case None => None
        case Some(ks) => Some([SortKey(t[0], asc)] + ks)
      else None
  }

  /** What sort_string_test returns: the number of fields capped at INT_MAX, -1 for an invalid string, 0 for NULL. */
  function SortCount(str: Option<string>): int
  {
    match str
    case None => 0
    case Some(s) =>
      match SortKeys(s)
      case None => -1
      case Some(ks) => if |ks| < Int32Max then |ks| else Int32Max
  }

  /** The keys of a string after its first field, for the step of the scanning loop. */
  lemma KeysStep(s: string, p: nat)
    requires p < |s| && s[p] != ' '
    ensures var q := if s[p] == '-' then p + 1 else p;
      SortKeys(s[p..]) ==
        if q < |s| && s[q] in SortableFields then
          match SortKeys(s[q + 1..])
          case None => None
          case Some(ks) => Some([SortKey(s[q], s[p] != '-')] + ks)
        else None
  {
    var q := if s[p] == '-' then p + 1 else p;
    var u := s[p..];
    assert u[0] == s[p];
    if s[p] == '-' {
      assert u[1..] == s[q..];
      if q < |s| {
        assert u[1..][1..] == s[q + 1..];
      }
    } else {
      assert u[1..] == s[q + 1..];
    }
  }

  /** The step of the scanning loop in terms of the count: a valid field adds one key, anything else makes the string invalid. */
  lemma CountStep(s: string, p: nat)
    requires p < |s| && s[p] != ' '
    ensures var q := if s[p] == '-' then p + 1 else p;
      if q < |s| && s[q] in SortableFields then
        (SortKeys(s[p..]).None? <==> SortKeys(s[q + 1..]).None?) &&
        (SortKeys(s[p..]).Some? ==> |SortKeys(s[p..]).value| == 1 + |SortKeys(s[q + 1..]).value|)
      else SortKeys(s[p..]) == None
  {
    KeysStep(s, p);
  }

  /** A leading space is skipped, and the empty string names no fields. */
  lemma KeysSpace(s: string, p: nat)
    requires p <= |s|
    ensures p < |s| && s[p] == ' ' ==> SortKeys(s[p..]) == SortKeys(s[p + 1..])
    ensures p == |s| ==> SortKeys(s[p..]) == Some([])
  {
    if p < |s| {
      assert s[p..][1..] == s[p + 1..];
    }
  }

  /** sort_string_test: the loop that counts the fields and rejects anything else. */
  method SortStringTest(str: Option<string>) returns (result: int)
    ensures result == SortCount(str)
  {
    result := 0;
    if str.None? {
      return;
    }
    var s := str.value;
    var p := 0;
    ghost var n: nat := 0;
    assert s[0..] == s;
    hide SortKeys, SortableFields;
    while result >= 0 && p < |s|
      invariant 0 <= p <= |s| && result >= -1
      invariant result == -1 ==> SortKeys(s) == None
      invariant result >= 0 ==> result == (if n < Int32Max then n else Int32Max)
      invariant result >= 0 ==> (SortKeys(s).None? <==> SortKeys(s[p..]).None?)
      invariant result >= 0 && SortKeys(s).Some? ==> |SortKeys(s).value| == n + |SortKeys(s[p..]).value|
      decreases |s| - p, result + 1
    {
      if s[p] == ' ' {
        KeysSpace(s, p);
        p := p + 1;
        continue;
      }
      var p2, ok := CountField(s, p);
      if !ok {
        result := -1;
      } else if result < Int32Max {
        result := result + 1;
      }
      n := n + 1;
      p := p2;
    }
    if result >= 0 {
      KeysSpace(s, p);
    }
  }

  /** One field of the loop of sort_string_test: an optional '-' and a sortable field char; ok is false when they are missing. */
  method CountField(s: string, p: nat) returns (p2: nat, ok: bool)
    requires p < |s| && s[p] != ' '
    ensures p < p2 <= |s|
    ensures !ok ==> SortKeys(s[p..]) == None
    ensures ok ==> (SortKeys(s[p..]).None? <==> SortKeys(s[p2..]).None?)
    ensures ok && SortKeys(s[p..]).Some? ==> |SortKeys(s[p..]).value| == 1 + |SortKeys(s[p2..]).value|
  {
    CountStep(s, p);
    p2 := p;
    if s[p] == '-' {
      p2 := p + 1;
    }
    ok := p2 < |s| && s[p2] in SortableFields;
    p2 := if p2 < |s| then p2 + 1 else p2;
  }

  /** The string without its leading spaces. */
  function SkipSpaces(s: string): (r: string)
    ensures |r| <= |s|
    ensures r == [] || r[0] != ' '
  {
    if s != [] && s[0] == ' ' then SkipSpaces(s[1..]) else s
  }

  lemma {:induction false} SkipSpacesKeys(s: string)
    ensures SortKeys(SkipSpaces(s)) == SortKeys(s)
    decreases |s|
  {
    if s != [] && s[0] == ' ' {
      SkipSpacesKeys(s[1..]);
    }
  }

  /** The result of sort_string_pop: the rest of the string (NULL when nothing is left), the field char and its direction. */
  datatype Pop = Pop(rest: Option<string>, field: char, asc: bool)

  /** One field taken off the head of the sort string. */
  function Popped(str: Option<string>): Pop
  {
    match str
    case None => Pop(None, '\0', true)
    case Some(s) =>
      var t := SkipSpaces(s);
      if t == [] then Pop(None, '\0', true) else PopField(t)
  }

  /** The direction and the field at the head of a string that starts after the spaces; '\0' when no sortable field is there. */
  function PopField(t: string): Pop
    requires t != []
  {
    var asc := t[0] != '-';
    var u := if asc then t else t[1..];
    if u != [] && u[0] in SortableFields then PopRest(u[1..], u[0], asc) else PopRest(u, '\0', asc)
  }

  /** What is left after the field: NULL when only spaces remain. */
  function PopRest(v: string, field: char, asc: bool): Pop
  {
    var w := SkipSpaces(v);
    Pop(if w == [] then None else Some(w), field, asc)
  }

  lemma SkipSpacesStep(s: string, p: nat)
    requires p <= |s|
    ensures p < |s| && s[p] == ' ' ==> SkipSpaces(s[p..]) == SkipSpaces(s[p + 1..])
    ensures p == |s| || s[p] != ' ' ==> SkipSpaces(s[p..]) == s[p..]
  {
    if p < |s| {
      assert s[p..][0] == s[p] && s[p..][1..] == s[p + 1..];
    }
  }

  /** The field read at position p of s, after the direction read at position d. */
  lemma PopFieldAt(s: string, d: nat, p: nat, field: char, q: nat)
    requires d < |s| && s[d] != ' '
    requires p == if s[d] == '-' then d + 1 else d
    requires p <= |s|
    requires if p < |s| && s[p] in SortableFields then field == s[p] && q == p + 1 else field == '\0' && q == p
    ensures PopField(s[d..]) == PopRest(s[q..], field, s[d] != '-')
  {
    var t := s[d..];
    assert t[0] == s[d];
    var u := if t[0] != '-' then t else t[1..];
    assert u == s[p..];
    if u != [] {
      assert u[0] == s[p] && u[1..] == s[p + 1..];
    }
  }

  /** The space-skipping loops of sort_string_pop: the index of the first non-space at or after p. */
  method SkipSpacesFrom(s: string, p: nat) returns (e: nat)
    requires p <= |s|
    ensures p <= e <= |s| && SkipSpaces(s[p..]) == s[e..]
  {
    e := p;
    while e < |s| && s[e] == ' '
      invariant p <= e <= |s| && SkipSpaces(s[e..]) == SkipSpaces(s[p..])
    {
      SkipSpacesStep(s, e);
      e := e + 1;
    }
    SkipSpacesStep(s, e);
  }

  /** sort_string_pop: skip spaces, read the direction and the field, skip spaces. */
  method SortStringPop(str: Option<string>) returns (r: Pop)
    ensures r == Popped(str)
  {
    if str.None? {
      return Pop(None, '\0', true);
    }
    var s := str.value;
    assert s[0..] == s;
    var p := SkipSpacesFrom(s, 0);
    if p == |s| {
      return Pop(None, '\0', true);
    }
    var d := p;
    var asc := true;
    if s[p] == '-' {
      asc := false;
      p := p + 1;
    }
    var field := '\0';
    var q := p;
    if p < |s| && s[p] in SortableFields {
      field := s[p];
      q := p + 1;
    }
    PopFieldAt(s, d, p, field, q);
    p := SkipSpacesFrom(s, q);
    r := Pop(if p < |s| then Some(s[p..]) else None, field, asc);
  }

  /** A string without leading spaces that names no fields is empty. */
  lemma NoKeysIsEmpty(w: string)
    requires (w == [] || w[0] != ' ') && SortKeys(w) == Some([])
    ensures w == []
  {
  }

  /** The keys of a string that starts with a field: its first key and the keys after it. */
  lemma KeysHead(t: string)
    requires t != [] && t[0] != ' ' && SortKeys(t).Some?
    ensures var asc := t[0] != '-'; var u := if asc then t else t[1..];
      u != [] && u[0] in SortableFields && SortKeys(u[1..]).Some? &&
      SortKeys(t).value == [SortKey(u[0], asc)] + SortKeys(u[1..]).value
  {
  }

  /** Popping a valid sort string yields its first field, and the rest names the remaining fields; NULL comes back with the last field. */
  lemma PopFollowsKeys(s: string)
    requires SortKeys(s).Some?
    ensures var ks := SortKeys(s).value; var r := Popped(Some(s));
      (ks == [] ==> r == Pop(None, '\0', true)) &&
      (ks != [] ==>
        r.field == ks[0].field && r.asc == ks[0].asc &&
        (r.rest.None? <==> |ks| == 1) &&
        (r.rest.Some? ==> SortKeys(r.rest.value) == Some(ks[1..])))
  {
    SkipSpacesKeys(s);
    var ks := SortKeys(s).value;
    var t := SkipSpaces(s);
    if t == [] {
      assert ks == [];
    } else {
      KeysHead(t);
      var asc := t[0] != '-';
      var u := if asc then t else t[1..];
      assert Popped(Some(s)) == PopRest(u[1..], u[0], asc);
      var w := SkipSpaces(u[1..]);
      SkipSpacesKeys(u[1..]);
      assert SortKeys(w) == Some(ks[1..]);
      if w != [] && |ks| == 1 {
        NoKeysIsEmpty(w);
      }
    }
  }

  /** The field chars and the directions of a list of keys. */
  function FieldsOf(ks: seq<SortKey>): (r: seq<char>)
    ensures |r| == |ks| && forall i :: 0 <= i < |ks| ==> r[i] == ks[i].field
  {
    seq(|ks|, i requires 0 <= i < |ks| => ks[i].field)
  }

  function AscOf(ks: seq<SortKey>): (r: seq<bool>)
    ensures |r| == |ks| && forall i :: 0 <= i < |ks| ==> r[i] == ks[i].asc
  {
    seq(|ks|, i requires 0 <= i < |ks| => ks[i].asc)
  }

  /** The sort settings of file_list_init: the field count and the fields and directions in order. */
  datatype Order = Order(n: int, fields: seq<char>, asc: seq<bool>)

  function OrderOf(orderby: Option<string>): (r: Order)
    ensures 0 <= r.n <= |r.fields| == |r.asc|
    ensures orderby.Some? && SortKeys(orderby.value).Some? ==> |r.fields| == |SortKeys(orderby.value).value|
  {
    match orderby
    case None => Order(0, [], [])
    case Some(s) =>
      match SortKeys(s)
      case None => Order(0, [], [])
      case Some(ks) => Order(SortCount(orderby), FieldsOf(ks), AscOf(ks))
  }

  /** A NULL, empty or invalid sort string gives no fields. */
  lemma NoFieldsOrder(orderby: Option<string>)
    requires SortCount(orderby) <= 0
    ensures OrderOf(orderby) == Order(if SortCount(orderby) == -1 then 0 else SortCount(orderby), [], [])
  {
    if orderby.Some? && SortKeys(orderby.value).Some? {
      assert FieldsOf(SortKeys(orderby.value).value) == [];
    }
  }

  /** The field parsing of file_list_init: test the string, then pop its fields one by one. */
  method ParseOrderBy(orderby: Option<string>) returns (r: Order)
    ensures r == OrderOf(orderby)
  {
    var count := SortStringTest(orderby);
    if count == -1 || count == 0 {
      NoFieldsOrder(orderby);
      return Order(if count == -1 then 0 else count, [], []);
    }
    var s := orderby.value;
    assert SortKeys(s).Some?;
    ghost var ks := SortKeys(s).value;
    assert OrderOf(orderby) == Order(count, FieldsOf(ks), AscOf(ks));
    var fields, asc := PopFields(s, ks);
    r := Order(count, fields, asc);
  }

  /** The sort_string_pop loop of file_list_init over a valid string with at least one field. */
  method PopFields(s: string, ghost ks: seq<SortKey>) returns (fields: seq<char>, asc: seq<bool>)
    requires SortKeys(s) == Some(ks) && ks != []
    ensures fields == FieldsOf(ks) && asc == AscOf(ks)
  {
    assert ks[0..] == ks;
    PopNext(s, ks, 0);
    KeysPrefixStep(ks, 0);
    hide SortKeys, Popped, FieldsOf, AscOf;
    var popped := SortStringPop(Some(s));
    fields := [popped.field];
    asc := [popped.asc];
    while popped.rest.Some?
      invariant 1 <= |fields| <= |ks|
      invariant fields == FieldsOf(ks)[..|fields|] && asc == AscOf(ks)[..|fields|]
      invariant popped.rest.None? <==> |fields| == |ks|
      invariant popped.rest.Some? ==> SortKeys(popped.rest.value) == Some(ks[|fields|..])
      decreases |ks| - |fields|
    {
      PopNext(popped.rest.value, ks, |fields|);
      KeysPrefixStep(ks, |fields|);
      popped := SortStringPop(popped.rest);
      fields := fields + [popped.field];
      asc := asc + [popped.asc];
    }
    KeysPrefixStep(ks, |ks|);
  }

  /** Popping the string that names the keys from index n on yields key n and a rest naming the keys after it. */
  lemma PopNext(rest: string, ks: seq<SortKey>, n: nat)
    requires n < |ks| && SortKeys(rest) == Some(ks[n..])
    ensures var r := Popped(Some(rest));
      r.field == ks[n].field && r.asc == ks[n].asc &&
      (r.rest.None? <==> n + 1 == |ks|) &&
      (r.rest.Some? ==> SortKeys(r.rest.value) == Some(ks[n + 1..]))
  {
    PopFollowsKeys(rest);
    assert ks[n..][1..] == ks[n + 1..];
  }

  /** The field chars and directions of the first n + 1 keys extend those of the first n; all n keys give the whole lists. */
  lemma KeysPrefixStep(ks: seq<SortKey>, n: nat)
    requires n <= |ks|
    ensures n < |ks| ==> FieldsOf(ks)[..n + 1] == FieldsOf(ks)[..n] + [ks[n].field]
    ensures n < |ks| ==> AscOf(ks)[..n + 1] == AscOf(ks)[..n] + [ks[n].asc]
    ensures n == 0 ==> FieldsOf(ks)[..n] == [] && AscOf(ks)[..n] == []
    ensures n == |ks| ==> FieldsOf(ks)[..n] == FieldsOf(ks) && AscOf(ks)[..n] == AscOf(ks)
  {
  }

  // ---------------------------------------------------------------- the list

  /** FileList: the command-line argument, the sort settings and the entry array. */
  class FileList {
    var cli: string
    var order: Order
    var entries: array<FI.Info>
    var count: nat
    var size: nat

    predicate Valid()
      reads this, entries
    {
      entries.Length == size && count <= size && size >= 1 &&
      0 <= order.n <= |order.fields| == |order.asc|
    }

    function Entries(): seq<FI.Info>
      reads this, entries
      requires Valid()
    {
      entries[..count]
    }

    /** file_list_init. */
    constructor (cli: string, orderby: Option<string>)
      ensures Valid() && fresh(entries)
      ensures this.cli == cli && order == OrderOf(orderby) && Entries() == [] && size == InitialSize
    {
      this.cli := cli;
      entries := new FI.Info[InitialSize];
      count := 0;
      size := InitialSize;
      order := Order(0, [], []);
      new;
      order := ParseOrderBy(orderby);
    }

    /**
     * file_list_append: the array doubles when full; the entry is added only
     * when the file's details can be read.
     */
    method Append(path: string, st: Option<FI.Stat>) returns (success: bool)
      requires Valid()
      modifies this, entries
      ensures Valid() && (fresh(entries) || entries == old(entries))
      ensures cli == old(cli) && order == old(order)
      ensures success <==> FI.Get(cli, path, st).Some?
      ensures Entries() == old(Entries()) + (if success then [FI.Get(cli, path, st).value] else [])
      ensures size == if old(count) == old(size) then 2 * old(size) else old(size)
    {
      if size == count {
        var grown := new FI.Info[2 * size];
        var k := 0;
        while k < count
          invariant 0 <= k <= count && grown[..k] == entries[..k]
          modifies grown
        {
          grown[k] := entries[k];
          k := k + 1;
        }
        entries := grown;
        size := 2 * size;
      }
      var entry := FI.Get(cli, path, st);
      if entry.Some? {
        entries[count] := entry.value;
        count := count + 1;
        success := true;
      } else {
        success := false;
      }
    }

    /**
     * file_list_sort: the entries put in the order of the sort fields. The
     * sorted sequence is written back into the array.
     */
    method Sort(cmp: (FI.FileAttr, FI.FileAttr) -> int, envOf: string -> FI.Env)
      requires Valid()
      modifies entries
      ensures Valid()
      ensures Entries() == SortBy(old(Entries()), order, cmp, envOf)
    {
      var sorted := SortBy(entries[..count], order, cmp, envOf);
      CopyInto(entries, sorted);
    }

    /** Writes s over the first |s| slots of a, one slot at a time. */
    static method CopyInto(a: array<FI.Info>, s: seq<FI.Info>)
      requires |s| <= a.Length
      modifies a
      ensures a[..|s|] == s
    {
      var k := 0;
      while k < |s|
        invariant 0 <= k <= |s| && a[..k] == s[..k]
      {
        a[k] := s[k];
        k := k + 1;
      }
    }
  }

  // ---------------------------------------------------------- the comparator

  /** An attribute of a file, when file_info_get_attr can read it. */
  function AttrOf(info: FI.Info, field: char, envOf: string -> FI.Env): Option<FI.FileAttr>
  {
    match FI.GetAttr(info, field, envOf(info.path))
    case Found(a) => Some(a)
    case _ => None
  }

  /** One field compared; 0 when either file's attribute cannot be read. */
  function FieldOrder(field: char, a: FI.Info, b: FI.Info, cmp: (FI.FileAttr, FI.FileAttr) -> int, envOf: string -> FI.Env): int
  {
    match (AttrOf(a, field, envOf), AttrOf(b, field, envOf))
    case (Some(x), Some(y)) => cmp(x, y)
    case _ => 0
  }

  /** The order of two entries: the first field that tells them apart decides, negated for a descending field. */
  function Compared(ks: seq<SortKey>, a: FI.Info, b: FI.Info, cmp: (FI.FileAttr, FI.FileAttr) -> int, envOf: string -> FI.Env): int
  {
    if ks == [] then 0
    else
      var r := FieldOrder(ks[0].field, a, b, cmp, envOf);
      if r != 0 then (if ks[0].asc then r else -r)
      else Compared(ks[1..], a, b, cmp, envOf)
  }

  /** The keys of the first n fields of the sort settings. */
  function KeysOf(fields: seq<char>, asc: seq<bool>, n: nat): (ks: seq<SortKey>)
    requires n <= |fields| && n <= |asc|
    ensures |ks| == n && forall i :: 0 <= i < n ==> ks[i] == SortKey(fields[i], asc[i])
  {
    seq(n, i requires 0 <= i < n => SortKey(fields[i], asc[i]))
  }

  /** _file_list_compare_entries: the loop over the sort fields. */
  method CompareEntries(order: Order, a: FI.Info, b: FI.Info, cmp: (FI.FileAttr, FI.FileAttr) -> int, envOf: string -> FI.Env) returns (result: int)
    requires order.n <= |order.fields| && order.n <= |order.asc|
    ensures result == Compared(KeysOf(order.fields, order.asc, if order.n < 0 then 0 else order.n), a, b, cmp, envOf)
  {
    var n := if order.n < 0 then 0 else order.n;
    ghost var ks := KeysOf(order.fields, order.asc, n);
    result := 0;
    var i := 0;
    while i < order.n
      invariant 0 <= i <= n
      invariant Compared(ks, a, b, cmp, envOf) == Compared(ks[i..], a, b, cmp, envOf)
    {
      assert ks[i..][0] == ks[i] && ks[i..][1..] == ks[i + 1..];
      result := FieldOrder(order.fields[i], a, b, cmp, envOf);
      if result != 0 {
        if !order.asc[i] {
          result := result * -1;
        }
        return;
      }
      i := i + 1;
    }
    assert ks[i..] == [];
  }

  /** The comparison is 0 exactly when every field compares equal; otherwise the first unequal field decides. */
  lemma {:induction false} FirstUnequalFieldDecides(ks: seq<SortKey>, a: FI.Info, b: FI.Info, cmp: (FI.FileAttr, FI.FileAttr) -> int, envOf: string -> FI.Env)
    ensures Compared(ks, a, b, cmp, envOf) == 0 <==> forall i :: 0 <= i < |ks| ==> FieldOrder(ks[i].field, a, b, cmp, envOf) == 0
    ensures forall i ::
      (0 <= i < |ks| && FieldOrder(ks[i].field, a, b, cmp, envOf) != 0 &&
       (forall j :: 0 <= j < i ==> FieldOrder(ks[j].field, a, b, cmp, envOf) == 0))
      ==> Compared(ks, a, b, cmp, envOf) == (if ks[i].asc then 1 else -1) * FieldOrder(ks[i].field, a, b, cmp, envOf)
    decreases |ks|
  {
    if ks != [] {
      FirstUnequalFieldDecides(ks[1..], a, b, cmp, envOf);
      forall i | 1 <= i < |ks|
        ensures ks[i] == ks[1..][i - 1]
      {
      }
    }
  }

  /** With an antisymmetric attribute comparison, swapping the two entries negates the result. */
  lemma {:induction false} ComparedAntisymmetric(ks: seq<SortKey>, a: FI.Info, b: FI.Info, cmp: (FI.FileAttr, FI.FileAttr) -> int, envOf: string -> FI.Env)
    requires forall x, y :: cmp(x, y) == -cmp(y, x)
    ensures Compared(ks, a, b, cmp, envOf) == -Compared(ks, b, a, cmp, envOf)
    decreases |ks|
  {
    if ks != [] {
      ComparedAntisymmetric(ks[1..], a, b, cmp, envOf);
      match (AttrOf(a, ks[0].field, envOf), AttrOf(b, ks[0].field, envOf))
      case (Some(x), Some(y)) =>
        assert FieldOrder(ks[0].field, b, a, cmp, envOf) == cmp(y, x);
      case _ =>
    }
  }

  function Flipped(ks: seq<SortKey>): (r: seq<SortKey>)
    ensures |r| == |ks| && forall i :: 0 <= i < |ks| ==> r[i] == SortKey(ks[i].field, !ks[i].asc)
  {
    seq(|ks|, i requires 0 <= i < |ks| => SortKey(ks[i].field, !ks[i].asc))
  }

  /** Turning every field's direction around reverses the order. */
  lemma {:induction false} FlippedReverses(ks: seq<SortKey>, a: FI.Info, b: FI.Info, cmp: (FI.FileAttr, FI.FileAttr) -> int, envOf: string -> FI.Env)
    ensures Compared(Flipped(ks), a, b, cmp, envOf) == -Compared(ks, a, b, cmp, envOf)
    decreases |ks|
  {
    if ks != [] {
      assert Flipped(ks)[1..] == Flipped(ks[1..]);
      FlippedReverses(ks[1..], a, b, cmp, envOf);
    }
  }

  /** The comparison of two entries under the sort settings of the list. */
  function EntryOrder(order: Order, a: FI.Info, b: FI.Info, cmp: (FI.FileAttr, FI.FileAttr) -> int, envOf: string -> FI.Env): int
    requires 0 <= order.n <= |order.fields| == |order.asc|
  {
    Compared(KeysOf(order.fields, order.asc, order.n), a, b, cmp, envOf)
  }

  /** An entry placed before the first entry it does not follow. */
  function Insert(x: FI.Info, es: seq<FI.Info>, order: Order, cmp: (FI.FileAttr, FI.FileAttr) -> int, envOf: string -> FI.Env): (r: seq<FI.Info>)
    requires 0 <= order.n <= |order.fields| == |order.asc|
    ensures multiset(r) == multiset(es) + multiset{x} && |r| == |es| + 1
  {
    if es == [] then [x]
    else if EntryOrder(order, x, es[0], cmp, envOf) <= 0 then [x] + es
    else
      assert es == [es[0]] + es[1..];
      [es[0]] + Insert(x, es[1..], order, cmp, envOf)
  }

  /** The entries sorted by the sort settings: a permutation of them. */
  function SortBy(es: seq<FI.Info>, order: Order, cmp: (FI.FileAttr, FI.FileAttr) -> int, envOf: string -> FI.Env): (r: seq<FI.Info>)
    requires 0 <= order.n <= |order.fields| == |order.asc|
    ensures multiset(r) == multiset(es) && |r| == |es|
  {
    if es == [] then []
    else
      assert es == [es[0]] + es[1..];
      Insert(es[0], SortBy(es[1..], order, cmp, envOf), order, cmp, envOf)
  }

  /** No entry is ordered after the entry that follows it. */
  predicate Ordered(es: seq<FI.Info>, order: Order, cmp: (FI.FileAttr, FI.FileAttr) -> int, envOf: string -> FI.Env)
    requires 0 <= order.n <= |order.fields| == |order.asc|
  {
    forall i :: 0 <= i < |es| - 1 ==> EntryOrder(order, es[i], es[i + 1], cmp, envOf) <= 0
  }

  lemma {:induction false} InsertOrdered(x: FI.Info, es: seq<FI.Info>, order: Order, cmp: (FI.FileAttr, FI.FileAttr) -> int, envOf: string -> FI.Env)
    requires 0 <= order.n <= |order.fields| == |order.asc|
    requires forall u, v :: cmp(u, v) == -cmp(v, u)
    requires Ordered(es, order, cmp, envOf)
    ensures Ordered(Insert(x, es, order, cmp, envOf), order, cmp, envOf)
    ensures var r := Insert(x, es, order, cmp, envOf); r != [] && (r[0] == x || (es != [] && r[0] == es[0]))
    decreases |es|
  {
    if es != [] && EntryOrder(order, x, es[0], cmp, envOf) > 0 {
      var ks := KeysOf(order.fields, order.asc, order.n);
      ComparedAntisymmetric(ks, x, es[0], cmp, envOf);
      InsertOrdered(x, es[1..], order, cmp, envOf);
      var r := Insert(x, es, order, cmp, envOf);
      var t := Insert(x, es[1..], order, cmp, envOf);
      assert r == [es[0]] + t;
      forall i | 0 <= i < |r| - 1
        ensures EntryOrder(order, r[i], r[i + 1], cmp, envOf) <= 0
      {
        if i > 0 {
          assert r[i] == t[i - 1] && r[i + 1] == t[i];
        }
      }
    }
  }

  /**
   * With an antisymmetric attribute comparison, the sorted entries are in
   * order: no entry compares greater than the one after it.
   */
  lemma {:induction false} SortByOrdered(es: seq<FI.Info>, order: Order, cmp: (FI.FileAttr, FI.FileAttr) -> int, envOf: string -> FI.Env)
    requires 0 <= order.n <= |order.fields| == |order.asc|
    requires forall u, v :: cmp(u, v) == -cmp(v, u)
    ensures Ordered(SortBy(es, order, cmp, envOf), order, cmp, envOf)
    decreases |es|
  {
    if es != [] {
      SortByOrdered(es[1..], order, cmp, envOf);
      InsertOrdered(es[0], SortBy(es[1..], order, cmp, envOf), order, cmp, envOf);
    }
  }
}
