/**
 * The example extensions written in Python (examples/python/py-example.py
 * and examples/python/example.py): both export py_check_extension(str, int),
 * which compares os.path.splitext(filename)[1] with the given extension,
 * lowering both sides when icase is non-zero; py-example.py answers 0 for a
 * file name without an extension, example.py does not test for that.
 */
module PyExample {
  import opened Wrappers
  import opened Extension
  import CExample

  /** Some character of s is not a '.'. */
  predicate NotAllDots(s: string)
  {
    exists j :: 0 <= j < |s| && s[j] != '.'
  }

  /**
   * posixpath.splitext: the extension starts at the last '.' after the last
   * '/', provided a character other than '.' comes between them (leading dots
   * of the last component do not start an extension); otherwise it is empty.
   */
  function SplitExt(p: string): (r: (string, string))
  {
    var start := match CExample.LastIndex(p, '/') case None => 0 case Some(s) => s + 1;
    match CExample.LastIndex(p, '.')
    case Some(d) =>
      if start <= d && NotAllDots(p[start..d]) then (p[..d], p[d..]) else (p, "")
    case None => (p, "")
  }

  /** The root and the extension make up the path; an extension is a '.' and then neither '.' nor '/'. */
  lemma SplitExtParts(p: string)
    ensures SplitExt(p).0 + SplitExt(p).1 == p
    ensures var ext := SplitExt(p).1;
      ext == [] || (ext[0] == '.' && '.' !in ext[1..] && '/' !in ext)
  {
    var sep := CExample.LastIndex(p, '/');
    var dot := CExample.LastIndex(p, '.');
    var start := match sep case None => 0 case Some(s) => s + 1;
    if dot.Some? && start <= dot.value && NotAllDots(p[start..dot.value]) {
      var d := dot.value;
      assert p[..d] + p[d..] == p;
      assert p[d + 1..] == p[d..][1..];
    } else {
      assert p + "" == p;
    }
  }

  /** The comparison both files make: exact when icase is 0, on lowered strings otherwise. */
  function Compare(ext: string, extension: string, icase: int): (r: int)
    ensures r == 1 <==> CExample.SameText(ext, extension, icase)
    ensures r == 0 || r == 1
  {
    if icase == 0 then (if ext == extension then 1 else 0)
    else (if CExample.Lower(ext) == CExample.Lower(extension) then 1 else 0)
  }

  /** py_check_extension of py-example.py: 0 unless the file name has an extension. */
  function PyCheckExtension(filename: string, extension: string, icase: int): (r: int)
  {
    var ext := SplitExt(filename).1;
    if |ext| > 0 then Compare(ext, extension, icase) else 0
  }

  /** py_check_extension of example.py: the comparison without the empty-extension test. */
  function ExampleCheckExtension(filename: string, extension: string, icase: int): (r: int)
  {
    Compare(SplitExt(filename).1, extension, icase)
  }

  /**
   * The two versions agree on every file name with an extension; on one
   * without, py-example.py answers 0 and example.py answers 1 exactly when
   * the extension asked for is "".
   */
  lemma GuardOnlyMattersWithoutExtension(filename: string, extension: string, icase: int)
    ensures SplitExt(filename).1 != [] ==>
      PyCheckExtension(filename, extension, icase) == ExampleCheckExtension(filename, extension, icase)
    ensures SplitExt(filename).1 == [] ==>
      PyCheckExtension(filename, extension, icase) == 0 &&
      (ExampleCheckExtension(filename, extension, icase) == 1 <==> extension == [])
  {
    if SplitExt(filename).1 == [] && CExample.SameText([], extension, icase) {
      assert |CExample.Lower(extension)| == |extension|;
    }
  }

  /** For instance "README" has no extension: it matches "" in example.py only. */
  lemma NoExtensionMatchesEmpty()
    ensures ExampleCheckExtension("README", "", 0) == 1
    ensures PyCheckExtension("README", "", 0) == 0
  {
    assert CExample.LastIndex("README", '.').None?;
  }

  /**
   * For a file name without '/' that does not start with '.', py-example.py
   * and the C example give the same answer.
   */
  lemma PyAgreesWithC(filename: string, extension: string, icase: int)
    requires '/' !in filename
    requires filename == [] || filename[0] != '.'
    ensures PyCheckExtension(filename, extension, icase) == CExample.CheckExtension(filename, Some(extension), icase)
  {
    var dot := CExample.LastIndex(filename, '.');
    if dot.Some? {
      var d := dot.value;
      assert 0 < d;
      assert filename[0..d][0] != '.';
      assert NotAllDots(filename[0..d]);
      assert SplitExt(filename).1 == filename[d..];
    }
  }

  /** A dot file differs: C takes ".bashrc" as its extension, splitext takes none. */
  lemma DotFileDiffers()
    ensures CExample.CheckExtension(".bashrc", Some(".bashrc"), 0) == 1
    ensures PyCheckExtension(".bashrc", ".bashrc", 0) == 0
  {
    var f := ".bashrc";
    assert f[0] == '.' && '.' !in f[1..];
    assert CExample.LastIndex(f, '.') == Some(0);
    assert f[0..] == f;
  }

  /** The Python types a __signature__ can list. */
  datatype PyType = PyInt | PyStr

  /** The type code the Python backend gives each type. */
  function TypeCode(t: PyType): (code: int)
    ensures code in {IntegerCode, StringCode}
  {
    match t
    case PyInt => IntegerCode
    case PyStr => StringCode
  }

  /** py_check_extension.__signature__ in both files, and EXTENSION_EXPORT. */
  const Signature: seq<PyType> := [PyStr, PyInt]
  const Exports: seq<string> := ["py_check_extension"]

  /** The exported function takes a string and an integer. */
  lemma SignatureIsStringInteger()
    ensures DecodeTypes([TypeCode(Signature[0]), TypeCode(Signature[1])]) == Some([ArgString, ArgInteger])
    ensures JoinTypes([ArgString, ArgInteger]) == "string, integer"
    ensures "py_check_extension" in Exports
  {
    var codes := [StringCode, IntegerCode];
    assert codes[1..] == [IntegerCode] && codes[1..][1..] == [];
    assert DecodeTypes(codes[1..][1..]) == Some([]);
    assert DecodeTypes(codes[1..]) == Some([ArgInteger] + []);
    assert [ArgInteger] + [] == [ArgInteger];
    assert codes[0] == StringCode != IntegerCode;
    assert DecodeTypes(codes) == Some([ArgString] + [ArgInteger]);
    assert [ArgString] + [ArgInteger] == [ArgString, ArgInteger];
    assert [TypeCode(Signature[0]), TypeCode(Signature[1])] == codes;
    assert [ArgString, ArgInteger][1..] == [ArgInteger];
  }
}
