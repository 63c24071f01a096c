/**
 * The long field names of format-fields.c: the table pairing each name with
 * its one-character field, the lookup of a name, and the rewrite of every
 * "{name}" in a format string into its field character.
 */
module FormatFields {
  import opened Wrappers

  /** _FIELD_CHARS. */
  const FieldChars: string := "AbCDfFgGhHiklmMnpsSTuU"

  /** _FIELD_NAMES, paired with FieldChars by index. */
  const FieldNames: seq<string> := [
    "atime", "blocks", "ctime", "device", "filename", "filesystem",
    "group", "gid", "directory", "starting-point", "inode", "kb", "link",
    "permission-bits", "permissions", "hardlinks", "path", "bytes",
    "sparseness", "mtime", "username", "uid"
  ]

  const FieldCount: nat := 22

  /** The table has one char per name. */
  lemma TableShape()
    ensures |FieldNames| == |FieldChars| == FieldCount
  {
  }

  /** The names are distinct. */
  lemma NamesDistinct()
    ensures |FieldNames| == FieldCount
    ensures forall i, j :: 0 <= i < j < FieldCount ==> FieldNames[i] != FieldNames[j]
  {
  }

  /** No field char is '\0' or '{'. */
  lemma FieldCharPlain(i: nat)
    requires i < FieldCount
    ensures |FieldChars| == FieldCount && FieldChars[i] != '\0' && FieldChars[i] != '{'
  {
  }

  /** Every name has at least two chars and holds neither brace. */
  lemma FieldNamePlain(i: nat)
    requires i < FieldCount
    ensures |FieldNames| == FieldCount && |FieldNames[i]| >= 2 && '}' !in FieldNames[i] && '{' !in FieldNames[i]
  {
  }

  /** Every name is spelled with lower-case letters and '-'. */
  lemma FieldNameChars(i: nat)
    requires i < FieldCount
    ensures |FieldNames| == FieldCount
    ensures forall k :: 0 <= k < |FieldNames[i]| ==> 'a' <= FieldNames[i][k] <= 'z' || FieldNames[i][k] == '-'
  {
  }

  /** The first name at index i or later equal to name gives the char; none gives '\0'. */
  function LookupFrom(name: string, i: nat): (c: char)
    requires i <= FieldCount
    ensures c == '\0' <==> name !in FieldNames[i..]
    ensures c != '\0' ==> exists j :: i <= j < FieldCount && FieldNames[j] == name && FieldChars[j] == c
    decreases FieldCount - i
  {
    TableShape();
    if i == FieldCount then '\0'
    else if FieldNames[i] == name then FieldCharPlain(i); FieldChars[i]
    else
      assert FieldNames[i..] == [FieldNames[i]] + FieldNames[i + 1..];
      LookupFrom(name, i + 1)
  }

  /** format_map_field_name: the char paired with the name, or '\0' for an unknown name. */
  function MapFieldName(name: string): (c: char)
    ensures c == '\0' <==> name !in FieldNames
    ensures forall j :: 0 <= j < FieldCount && FieldNames[j] == name ==> c == FieldChars[j]
  {
    LookupFromStart(name);
    LookupFrom(name, 0)
  }

  /** The lookup from the first entry finds a name exactly when the table holds it, and then at its one index. */
  lemma LookupFromStart(name: string)
    ensures LookupFrom(name, 0) == '\0' <==> name !in FieldNames
    ensures forall j :: 0 <= j < FieldCount && FieldNames[j] == name ==> LookupFrom(name, 0) == FieldChars[j]
  {
    TableShape();
    assert FieldNames[0..] == FieldNames;
    forall j | 0 <= j < FieldCount && FieldNames[j] == name
      ensures LookupFrom(name, 0) == FieldChars[j]
    {
      var k :| 0 <= k < FieldCount && FieldNames[k] == name && FieldChars[k] == LookupFrom(name, 0);
      NameIndexUnique(j, k);
    }
  }

  /** Two indices holding the same name are the same index. */
  lemma NameIndexUnique(i: nat, j: nat)
    requires i < FieldCount && j < FieldCount && FieldNames[i] == FieldNames[j]
    ensures i == j
  {
    NamesDistinct();
  }

  /** Every name maps to its own char. */
  lemma MapFieldNameOfTable(i: nat)
    requires i < FieldCount
    ensures MapFieldName(FieldNames[i]) == FieldChars[i]
  {
    TableShape();
  }

  lemma MapFieldNameExamples()
    ensures MapFieldName("mtime") == 'T' && MapFieldName("bytes") == 's' && MapFieldName("permissions") == 'M'
  {
    ExampleEntries();
    hide MapFieldName, LookupFrom, FieldNames, FieldChars;
    MapFieldNameOfTable(19);
    MapFieldNameOfTable(17);
    MapFieldNameOfTable(14);
  }

  lemma ExampleEntries()
    ensures FieldNames[19] == "mtime" && FieldChars[19] == 'T'
    ensures FieldNames[17] == "bytes" && FieldChars[17] == 's'
    ensures FieldNames[14] == "permissions" && FieldChars[14] == 'M'
  {
  }

  /** Names outside the table, the empty one included, map to '\0'. */
  lemma MapFieldNameUnknown()
    ensures MapFieldName("size") == '\0' && MapFieldName("") == '\0'
  {
    assert "size" !in FieldNames;
    assert "" !in FieldNames;
  }

  /** The snprintf'd "{name}" for table entry i. */
  function Braced(i: nat): (b: string)
    requires i < FieldCount
    ensures |b| == |FieldNames[i]| + 2 && b[0] == '{' && b[|b| - 1] == '}'
  {
    "{" + FieldNames[i] + "}"
  }

  lemma BracedInner(i: nat)
    requires i < FieldCount
    ensures Braced(i)[1..|Braced(i)| - 1] == FieldNames[i]
  {
  }

  /** The braced names are prefix-free: at most one of them starts any string. */
  lemma BracedPrefixFree(i: nat, k: nat, s: string)
    requires i < FieldCount && k < FieldCount && Braced(i) <= s && Braced(k) <= s
    ensures i == k
  {
    var a, b := FieldNames[i], FieldNames[k];
    FieldNamePlain(i);
    FieldNamePlain(k);
    BracedPrefix(a, b, s);
    NamesDistinct();
  }

  /** Of two "{name}" prefixes of one string, with no '}' inside the names, neither can be longer. */
  lemma BracedPrefix(a: string, b: string, s: string)
    requires '}' !in a && '}' !in b && "{" + a + "}" <= s && "{" + b + "}" <= s
    ensures a == b
  {
    assert forall p :: 1 <= p <= |a| ==> s[p] == a[p - 1] != '}';
    assert forall p :: 1 <= p <= |b| ==> s[p] == b[p - 1] != '}';
    assert s[|a| + 1] == '}' && s[|b| + 1] == '}';
    assert |a| == |b|;
    assert a == s[1..|a| + 1] == b;
  }

  /** The first table entry, from index i on, whose "{name}" starts s. */
  function MatchFrom(s: string, i: nat): (r: Option<nat>)
    requires i <= FieldCount
    ensures r.Some? ==> i <= r.value < FieldCount && Braced(r.value) <= s
    ensures r.Some? ==> forall k :: i <= k < r.value ==> !(Braced(k) <= s)
    ensures r.None? ==> forall k :: i <= k < FieldCount ==> !(Braced(k) <= s)
    decreases FieldCount - i
  {
    if i == FieldCount then None
    else if Braced(i) <= s then Some(i)
    else MatchFrom(s, i + 1)
  }

  /** The string format_substitute produces: one left-to-right pass, each "{name}" becoming its char. */
  function Substitute(s: string): string
    decreases |s|
  {
    if s == [] then []
    else match MatchFrom(s, 0)
      case Some(j) => [FieldChars[j]] + Substitute(s[|Braced(j)|..])
      case None => [s[0]] + Substitute(s[1..])
  }

  /** No "{name}" starts at any position of s. */
  predicate NoFieldNames(s: string)
  {
    forall k :: 0 <= k < |s| ==> MatchFrom(s[k..], 0).None?
  }

  /**
   * The rewrite never lengthens the string, and leaves it unchanged exactly
   * when no "{name}" occurs in it; each replacement removes at least three chars.
   */
  lemma {:induction false} SubstituteShrinks(s: string)
    ensures |Substitute(s)| <= |s|
    ensures Substitute(s) == s <==> NoFieldNames(s)
    ensures !NoFieldNames(s) ==> |Substitute(s)| < |s|
    decreases |s|
  {
    if s != [] {
      match MatchFrom(s, 0)
      case Some(j) =>
        SubstituteShrinks(s[|Braced(j)|..]);
        ShrinksAfterMatch(s, j);
      case None =>
        SubstituteShrinks(s[1..]);
        ShrinksAfterChar(s);
    }
  }

  /** The three facts of SubstituteShrinks about one string. */
  predicate Shrinks(s: string)
  {
    |Substitute(s)| <= |s| && (Substitute(s) == s <==> NoFieldNames(s)) && (!NoFieldNames(s) ==> |Substitute(s)| < |s|)
  }

  /** A "{name}" at the front of s: the facts about the rest carry over to s. */
  lemma ShrinksAfterMatch(s: string, j: nat)
    requires s != [] && MatchFrom(s, 0) == Some(j)
    requires Shrinks(s[|Braced(j)|..])
    ensures Shrinks(s)
  {
    FieldNamePlain(j);
    assert s[0..] == s;
    assert !NoFieldNames(s);
  }

  /** No "{name}" at the front of s: the facts about s[1..] carry over to s. */
  lemma ShrinksAfterChar(s: string)
    requires s != [] && MatchFrom(s, 0).None?
    requires Shrinks(s[1..])
    ensures Shrinks(s)
  {
    assert s[0..] == s;
    if NoFieldNames(s) {
      forall k | 0 <= k < |s[1..]|
        ensures MatchFrom(s[1..][k..], 0).None?
      {
        assert s[1..][k..] == s[k + 1..];
      }
    } else {
      var k :| 0 <= k < |s| && MatchFrom(s[k..], 0).Some?;
      assert k != 0;
      assert s[1..][k - 1..] == s[k..];
      assert !NoFieldNames(s[1..]);
    }
  }

  /** A "{name}" at the front becomes its char, and the pass continues after it. */
  lemma SubstituteField(i: nat, rest: string)
    requires i < FieldCount
    ensures Substitute(Braced(i) + rest) == [FieldChars[i]] + Substitute(rest)
  {
    var s := Braced(i) + rest;
    var m := MatchFrom(s, 0);
    assert !(m.None?) by { assert Braced(i) <= s; }
    BracedPrefixFree(i, m.value, s);
    assert s[|Braced(i)|..] == rest;
  }

  /** A "{name}" starts with '{' followed by a name char, never by a second '{'. */
  lemma MatchNeedsBrace(t: string)
    ensures MatchFrom(t, 0).Some? ==> |t| >= 2 && t[0] == '{' && t[1] != '{'
  {
    hide *;
    var m := MatchFrom(t, 0);
    if m.Some? {
      FieldNamePlain(m.value);
      BracedInner(m.value);
      assert t[1] == Braced(m.value)[1] == FieldNames[m.value][0];
    }
  }

  lemma BracedKb()
    ensures 11 < FieldCount && Braced(11) == "{kb}" && FieldChars[11] == 'k'
  {
  }

  /** The pass does not rescan what it wrote: "{{kb}b}" becomes "{kb}", which a second pass turns into "k". */
  lemma SinglePass()
    ensures Substitute("{{kb}b}") == "{kb}"
    ensures Substitute("{kb}") == "k"
  {
    hide *;
    BracedKb();
    SubstituteNil();
    SubstituteField(11, "");
    assert Braced(11) + "" == "{kb}";
    var one := "b}";
    MatchNeedsBrace(one);
    MatchNeedsBrace(one[1..]);
    SubstituteHead(one);
    SubstituteHead(one[1..]);
    assert one[1..][1..] == [];
    assert Substitute(one) == "b}";
    SubstituteField(11, one);
    var s := "{{kb}b}";
    MatchNeedsBrace(s);
    SubstituteHead(s);
    assert s[1..] == Braced(11) + one;
  }

  lemma SubstituteNil()
    ensures Substitute([]) == []
  {
  }

  /** One step of the pass: the first char of the result, and where the pass goes on. */
  lemma SubstituteHead(t: string)
    requires t != []
    ensures MatchFrom(t, 0).Some? ==>
      Substitute(t) == [FieldChars[MatchFrom(t, 0).value]] + Substitute(t[|Braced(MatchFrom(t, 0).value)|..])
    ensures MatchFrom(t, 0).None? ==> Substitute(t) == [t[0]] + Substitute(t[1..])
  {
  }

  /**
   * The loop over the table at one position of format_substitute: every entry
   * is tried in order, and the one whose "{name}" starts there, if any, is
   * overwritten by its char with the rest moved down.
   */
  method ReplaceAt(fmt: string, ptr: nat) returns (r: string)
    requires ptr < |fmt|
    ensures MatchFrom(fmt[ptr..], 0).Some? ==>
      r == fmt[..ptr] + [FieldChars[MatchFrom(fmt[ptr..], 0).value]] + fmt[ptr + |Braced(MatchFrom(fmt[ptr..], 0).value)|..]
    ensures MatchFrom(fmt[ptr..], 0).None? ==> r == fmt
  {
    hide *;
    TableShape();
    ghost var m := MatchFrom(fmt[ptr..], 0);
    r := fmt;
    var i := 0;
    while i < FieldCount
      invariant 0 <= i <= FieldCount
      invariant if m.Some? && m.value < i
        then r == fmt[..ptr] + [FieldChars[m.value]] + fmt[ptr + |Braced(m.value)|..]
        else r == fmt
    {
      var name := Braced(i);
      if m.Some? && m.value < i {
        FieldCharPlain(m.value);
        assert r[ptr..][0] != name[0];
      }
      if name <= r[ptr..] {
        r := r[..ptr] + [FieldChars[i]] + r[ptr + |name|..];
      }
      i := i + 1;
    }
  }

  /**
   * format_substitute: walks a copy of the string position by position,
   * rewriting a "{name}" found there into its char.
   */
  method FormatSubstitute(str: string) returns (fmt: string)
    ensures fmt == Substitute(str)
  {
    hide *;
    fmt := str;
    var ptr := 0;
    assert fmt[..0] + fmt[0..] == str;
    while ptr < |fmt|
      invariant ptr <= |fmt|
      invariant Substitute(str) == fmt[..ptr] + Substitute(fmt[ptr..])
      decreases |fmt| - ptr
    {
      ghost var before := fmt;
      SubstituteHead(before[ptr..]);
      fmt := ReplaceAt(fmt, ptr);
      if MatchFrom(before[ptr..], 0).Some? {
        assert fmt[ptr + 1..] == before[ptr..][|Braced(MatchFrom(before[ptr..], 0).value)|..];
      } else {
        assert fmt[ptr + 1..] == before[ptr..][1..];
      }
      assert fmt[..ptr + 1] == before[..ptr] + [fmt[ptr]];
      ptr := ptr + 1;
    }
    SubstituteNil();
    assert fmt[ptr..] == [] && fmt[..ptr] == fmt;
  }
}
