/**
 * The example extension written in C (examples/c/c-example.c): it registers
 * one callback, c_check_extension(string, integer), which tells whether the
 * part of a file name from its last '.' on equals the given extension,
 * optionally ignoring ASCII case.
 */
module CExample {
  import opened Wrappers
  import opened Extension
  import CTest

  /** strrchr: the index of the last occurrence of c in s, if any. */
  function LastIndex(s: string, c: char): (r: Option<nat>)
    ensures r.Some? ==> r.value < |s| && s[r.value] == c && c !in s[r.value + 1..]
    ensures r.None? <==> c !in s
    decreases |s|
  {
    if s == [] then None
    else if s[|s| - 1] == c then Some(|s| - 1)
    else
      var r := LastIndex(s[..|s| - 1], c);
      assert s == s[..|s| - 1] + [s[|s| - 1]];
      if r.Some? then
        assert s[r.value + 1..] == s[..|s| - 1][r.value + 1..] + [s[|s| - 1]];
        r
      else r
  }

  /** tolower in the C locale: only 'A'..'Z' change. */
  function LowerChar(c: char): (r: char)
    ensures 'A' <= c <= 'Z' ==> r as int == c as int + 32
    ensures !('A' <= c <= 'Z') ==> r == c
  {
    if 'A' <= c <= 'Z' then (c as int + 32) as char else c
  }

  /** A string with every character lowered. */
  function Lower(s: string): (r: string)
    ensures |r| == |s| && forall i :: 0 <= i < |s| ==> r[i] == LowerChar(s[i])
  {
    seq(|s|, i requires 0 <= i < |s| => LowerChar(s[i]))
  }

  /** One character comparison of the loop: ignoring case when icase is non-zero. */
  predicate SameChar(a: char, b: char, icase: int)
  {
    if icase != 0 then LowerChar(a) == LowerChar(b) else a == b
  }

  /** Two strings are equal, with case folded when icase is non-zero. */
  predicate SameText(a: string, b: string, icase: int)
  {
    if icase != 0 then Lower(a) == Lower(b) else a == b
  }

  /**
   * What c_check_extension answers: 1 when the file name has a '.' and the
   * suffix from its last '.' equals the extension (ignoring case when icase
   * is non-zero), 0 otherwise and for a NULL extension.
   */
  function CheckExtension(filename: string, extension: Option<string>, icase: int): (r: int)
  {
    match LastIndex(filename, '.')
    case None => 0
    case Some(k) =>
      if extension.Some? && SameText(filename[k..], extension.value, icase) then 1 else 0
  }

  /**
   * Compared exactly, the answer is 1 precisely when the extension is a
   * suffix of the file name that starts with '.' and holds no other '.'.
   */
  lemma ExactMeansDottedSuffix(filename: string, ext: string)
    ensures CheckExtension(filename, Some(ext), 0) == 1 <==>
      |ext| <= |filename| && filename[|filename| - |ext|..] == ext &&
      |ext| > 0 && ext[0] == '.' && '.' !in ext[1..]
  {
    var d := LastIndex(filename, '.');
    if |ext| <= |filename| && filename[|filename| - |ext|..] == ext && |ext| > 0 && ext[0] == '.' && '.' !in ext[1..] {
      var j := |filename| - |ext|;
      assert filename[j] == '.';
      assert d.Some?;
    }
    if CheckExtension(filename, Some(ext), 0) == 1 {
      var k := d.value;
      assert filename[k..] == ext;
      assert filename[k + 1..] == ext[1..];
    }
  }

  /** No '.' in the file name, or a NULL extension, always gives 0. */
  lemma NoDotOrNullGivesZero(filename: string, extension: Option<string>, icase: int)
    requires '.' !in filename || extension.None?
    ensures CheckExtension(filename, extension, icase) == 0
  {
  }

  /** Folding case can only turn a 0 into a 1. */
  lemma IcaseWeakensExact(filename: string, extension: Option<string>, icase: int)
    requires CheckExtension(filename, extension, 0) == 1
    ensures CheckExtension(filename, extension, icase) == 1
  {
  }

  /** c_check_extension: the length test, then a loop over both strings until a difference. */
  method CCheckExtension(filename: string, extension: Option<string>, icase: int) returns (result: int)
    ensures result == CheckExtension(filename, extension, icase)
  {
    result := 0;
    var dot := LastIndex(filename, '.');
    if dot.Some? {
      var offset := filename[dot.value..];
      if extension.Some? && |offset| == |extension.value| {
        var ext := extension.value;
        result := 1;
        var i := 0;
        while i < |offset| && result == 1
          invariant 0 <= i <= |offset|
          invariant result == 0 || result == 1
          invariant result == 1 ==> forall j :: 0 <= j < i ==> SameChar(offset[j], ext[j], icase)
          invariant result == 0 ==> 0 < i && !SameChar(offset[i - 1], ext[i - 1], icase)
          decreases |offset| - i
        {
          if icase != 0 {
            result := if LowerChar(offset[i]) == LowerChar(ext[i]) then 1 else 0;
          } else {
            result := if offset[i] == ext[i] then 1 else 0;
          }
          i := i + 1;
        }
        if result == 1 {
          if icase != 0 {
            assert Lower(offset) == Lower(ext);
          } else {
            assert offset == ext;
          }
        } else {
          if icase != 0 {
            assert Lower(offset)[i - 1] != Lower(ext)[i - 1];
          }
        }
      }
      else if extension.Some? && icase != 0 {
        assert |Lower(offset)| != |Lower(extension.value)|;
      }
    }
  }

  /** The registration discover makes, as type codes. */
  const Registrations: seq<(string, seq<int>)> := [("c_check_extension", [StringCode, IntegerCode])]

  /** discover registers c_check_extension taking a string and an integer. */
  lemma DiscoverRegistersCheckExtension()
    ensures CTest.Register(map[], Registrations) == map["c_check_extension" := [ArgString, ArgInteger]]
    ensures JoinTypes([ArgString, ArgInteger]) == "string, integer"
  {
    var codes := [StringCode, IntegerCode];
    assert codes[1..] == [IntegerCode] && codes[1..][1..] == [];
    assert DecodeTypes(codes[1..][1..]) == Some([]);
    assert DecodeTypes(codes[1..]) == Some([ArgInteger] + []);
    assert [ArgInteger] + [] == [ArgInteger];
    assert DecodeTypes(codes[1..]) == Some([ArgInteger]);
    assert codes[0] == StringCode != IntegerCode;
    assert DecodeTypes(codes) == Some([ArgString] + [ArgInteger]);
    assert [ArgString] + [ArgInteger] == [ArgString, ArgInteger];
    assert Registrations[1..] == [];
    assert [ArgString, ArgInteger][1..] == [ArgInteger];
  }
}
