/**
 * The format writer of format.c: each parsed node becomes one piece of
 * output. Text and string attributes are padded to the node's width,
 * integer attributes are printed through a printf format built from the
 * node's flags and width, and time attributes through a strftime format
 * built from the node's date format.
 *
 * What printf, strftime and ctime render is the C library's business: the
 * output is a log of Emit records naming the call and its arguments.
 */
module Format {
  import opened Wrappers
  import opened Words
  import Decimal
  import L = FormatLexer
  import P = FormatParser
  import FI = FileInfo

  /** One write to the output stream. */
  datatype Emit =
    | Puts(s: string)
    | Printf(fmt: string, n: Int32)
    | Strftime(fmt: string, t: int)
    | Ctime(t: int)
    /** The date format is too long: a message on stderr and nothing on the output. */
    | DateFormatTooLong
    /** Integer division by zero ('S' of an empty file): the process dies. */
    | Fault

  /** The size of time_format in _format_write_date. */
  const TimeFormatSize: nat := 64

  // ------------------------------------------------------------- padding

  function Spaces(n: nat): (r: string)
    ensures |r| == n && forall i :: 0 <= i < n ==> r[i] == ' '
  {
    seq(n, _ => ' ')
  }

  /** A string padded with spaces to width, on the right when left-aligned. */
  function Padded(text: string, width: int, left: bool): string
  {
    if width > |text| then
      if left then text + Spaces(width - |text|) else Spaces(width - |text|) + text
    else text
  }

  /** The padded string is exactly width long when the text is shorter, holds the text on its aligned side, and is spaces elsewhere. */
  lemma PaddedShape(text: string, width: int, left: bool)
    ensures var r := Padded(text, width, left);
      |r| == (if width > |text| then width else |text|) &&
      (left ==> r[..|text|] == text && forall i :: |text| <= i < |r| ==> r[i] == ' ') &&
      (!left ==> r[|r| - |text|..] == text && forall i :: 0 <= i < |r| - |text| ==> r[i] == ' ')
  {
  }

  /** _format_write_string: a buffer of width spaces with the text copied to its aligned end. */
  method WriteString(text: string, width: int, flags: bv32) returns (r: string)
    ensures r == Padded(text, width, flags & P.FlagMinus != 0)
  {
    if width > 0 && width > |text| {
      var buf := new char[width](_ => ' ');
      var at := if flags & P.FlagMinus != 0 then 0 else width - |text|;
      var i := 0;
      while i < |text|
        invariant 0 <= i <= |text|
        invariant forall j :: 0 <= j < at ==> buf[j] == ' '
        invariant forall j :: at <= j < at + i ==> buf[j] == text[j - at]
        invariant forall j :: at + i <= j < width ==> buf[j] == ' '
      {
        buf[at + i] := text[i];
        i := i + 1;
      }
      r := buf[..];
      assert r == Padded(text, width, flags & P.FlagMinus != 0);
    } else {
      r := text;
    }
  }

  // ------------------------------------------------------- integer format

  /** The flag chars in the order _format_write_integer writes them. */
  function FlagChars(flags: bv32): string
  {
    FlagChar(flags, P.FlagMinus, '-') + FlagChar(flags, P.FlagZero, '0') + FlagChar(flags, P.FlagSpace, ' ') +
    FlagChar(flags, P.FlagPlus, '+') + FlagChar(flags, P.FlagHash, '#')
  }

  /** The char of one flag when its bit is set. */
  function FlagChar(flags: bv32, bit: bv32, c: char): string
  {
    if flags & bit != 0 then [c] else ""
  }

  /** The printf format of an integer field: flags, then the width if positive, then the conversion. */
  function IntegerFormat(width: int, flags: bv32, conversion: char): string
  {
    "%" + FlagChars(flags) + (if width > 0 then Decimal.NatToString(width) else "") + [conversion]
  }

  /** _format_write_integer as written: with a positive width the conversion is always 'd'. */
  function IntegerFormatAsWritten(width: int, flags: bv32, conversion: char): string
  {
    "%" + FlagChars(flags) + (if width > 0 then Decimal.NatToString(width) + "d" else [conversion])
  }

  /** "%5m": the permission bits, meant to print in octal, print in decimal. */
  lemma WidthDropsConversion()
    ensures IntegerFormatAsWritten(5, 0, 'o') == "%5d"
    ensures IntegerFormat(5, 0, 'o') == "%5o"
  {
  }

  /** _format_write_integer's format string, built piece by piece. */
  method BuildIntegerFormat(width: int, flags: bv32, conversion: char) returns (fmt: string)
    ensures fmt == IntegerFormat(width, flags, conversion)
  {
    hide FlagChar;
    var flagChars := FlagChar(flags, P.FlagMinus, '-');
    flagChars := flagChars + FlagChar(flags, P.FlagZero, '0');
    flagChars := flagChars + FlagChar(flags, P.FlagSpace, ' ');
    flagChars := flagChars + FlagChar(flags, P.FlagPlus, '+');
    flagChars := flagChars + FlagChar(flags, P.FlagHash, '#');
    var digits := "";
    if width > 0 {
      digits := Decimal.NatToString(width);
    }
    fmt := "%" + flagChars + digits + [conversion];
  }

  /** A printf conversion specification: its flags, its width (0 when absent) and its conversion char. */
  datatype Spec = Spec(flags: bv32, width: nat, conversion: char)

  predicate IsFlagChar(c: char)
  {
    c in L.Flags
  }

  /** The flag chars at the head of s, and how many there are. */
  function ReadFlags(s: string): (r: (set<char>, nat))
    ensures r.1 <= |s|
  {
    if s != [] && IsFlagChar(s[0]) then
      var (cs, n) := ReadFlags(s[1..]);
      (cs + {s[0]}, n + 1)
    else ({}, 0)
  }

  /** The flags word a set of flag chars stands for. */
  function BitsOf(cs: set<char>): bv32
  {
    (if '-' in cs then P.FlagMinus else 0) |
    (if '0' in cs then P.FlagZero else 0) |
    (if ' ' in cs then P.FlagSpace else 0) |
    (if '+' in cs then P.FlagPlus else 0) |
    (if '#' in cs then P.FlagHash else 0)
  }

  /** How printf reads a format holding one conversion specification and nothing else. */
  function ReadSpec(fmt: string): Option<Spec>
  {
    if fmt == [] || fmt[0] != '%' then None
    else
      var rest := fmt[1..];
      var (chars, n) := ReadFlags(rest);
      var digits := Decimal.LeadingDigits(rest[n..]);
      var after := rest[n..][|digits|..];
      if |after| == 1 then Some(Spec(BitsOf(chars), Decimal.DigitsValue(digits), after[0])) else None
  }

  predicate AllFlagChars(s: string)
  {
    forall i :: 0 <= i < |s| ==> IsFlagChar(s[i])
  }

  lemma {:induction false} ReadFlagsOf(fs: string, rest: string)
    requires AllFlagChars(fs) && (rest == [] || !IsFlagChar(rest[0]))
    ensures ReadFlags(fs + rest) == (set c | c in fs, |fs|)
    decreases |fs|
  {
    if fs != [] {
      assert (fs + rest)[0] == fs[0];
      assert (fs + rest)[1..] == fs[1..] + rest;
      assert IsFlagChar(fs[0]);
      ReadFlagsOf(fs[1..], rest);
      assert ReadFlags(fs + rest) == (ReadFlags(fs[1..] + rest).0 + {fs[0]}, ReadFlags(fs[1..] + rest).1 + 1);
      assert fs == [fs[0]] + fs[1..];
      forall x
        ensures x in fs <==> x in fs[1..] || x == fs[0]
      {
      }
      assert (set c | c in fs) == (set c | c in fs[1..]) + {fs[0]};
    } else {
      assert fs + rest == rest;
      assert (set c | c in fs) == {};
    }
  }

  /** The five flag bits, each kept or dropped, make up the low five bits. */
  lemma FiveBits(f: bv32)
    ensures (if f & 2 != 0 then 2 else 0) | (if f & 1 != 0 then 1 else 0) | (if f & 8 != 0 then 8 else 0)
      | (if f & 16 != 0 then 16 else 0) | (if f & 4 != 0 then 4 else 0) == f & 31
  {
  }

  /** A char occurs in the flag chars exactly when it is the char of a set flag. */
  lemma FlagCharIn(flags: bv32, x: char)
    ensures x in FlagChars(flags) <==>
      (x == '-' && flags & 2 != 0) || (x == '0' && flags & 1 != 0) || (x == ' ' && flags & 8 != 0) ||
      (x == '+' && flags & 16 != 0) || (x == '#' && flags & 4 != 0)
  {
    var a := if flags & P.FlagMinus != 0 then "-" else "";
    var b := if flags & P.FlagZero != 0 then "0" else "";
    var c := if flags & P.FlagSpace != 0 then " " else "";
    var d := if flags & P.FlagPlus != 0 then "+" else "";
    var e := if flags & P.FlagHash != 0 then "#" else "";
    assert FlagChars(flags) == a + b + c + d + e;
    assert x in a + b + c + d + e <==> x in a || x in b || x in c || x in d || x in e;
  }

  lemma FlagCharsBits(flags: bv32)
    ensures AllFlagChars(FlagChars(flags))
    ensures BitsOf(set c | c in FlagChars(flags)) == flags & 31
  {
    var fs := FlagChars(flags);
    forall i | 0 <= i < |fs|
      ensures IsFlagChar(fs[i])
    {
      FlagCharIn(flags, fs[i]);
    }
    var cs := set c | c in fs;
    FlagCharIn(flags, '-');
    FlagCharIn(flags, '0');
    FlagCharIn(flags, ' ');
    FlagCharIn(flags, '+');
    FlagCharIn(flags, '#');
    assert BitsOf(cs) == (if flags & 2 != 0 then 2 else 0) | (if flags & 1 != 0 then 1 else 0) | (if flags & 8 != 0 then 8 else 0)
      | (if flags & 16 != 0 then 16 else 0) | (if flags & 4 != 0 then 4 else 0);
    FiveBits(flags);
  }

  lemma {:induction false} LeadingDigitsBefore(d: string, c: char)
    requires Decimal.AllDigits(d) && !Decimal.IsDigit(c)
    ensures Decimal.LeadingDigits(d + [c]) == d
    decreases |d|
  {
    if d == [] {
      assert d + [c] == [c];
    } else {
      assert (d + [c])[0] == d[0] && (d + [c])[1..] == d[1..] + [c];
      LeadingDigitsBefore(d[1..], c);
      assert [d[0]] + d[1..] == d;
    }
  }

  /** printf reads back from the integer format the node's flags, its width and the conversion asked for. */
  lemma IntegerFormatReadsBack(width: int, flags: bv32, conversion: char)
    requires !IsFlagChar(conversion) && !Decimal.IsDigit(conversion)
    ensures ReadSpec(IntegerFormat(width, flags, conversion)) == Some(Spec(flags & 31, if width > 0 then width else 0, conversion))
  {
    var w := if width > 0 then Decimal.NatToString(width) else "";
    FlagCharsBits(flags);
    if width > 0 {
      Decimal.NatToStringShape(width);
      Decimal.NatRoundTrip(width);
    }
    SpecReads(FlagChars(flags), w, conversion);
  }

  /** ReadSpec from the pieces it reads in turn. */
  lemma ReadSpecOfParts(fmt: string, chars: set<char>, n: nat, digits: string, c: char)
    requires fmt != [] && fmt[0] == '%' && ReadFlags(fmt[1..]) == (chars, n)
    requires Decimal.LeadingDigits(fmt[1..][n..]) == digits && fmt[1..][n..][|digits|..] == [c]
    ensures ReadSpec(fmt) == Some(Spec(BitsOf(chars), Decimal.DigitsValue(digits), c))
  {
  }

  /** Digits not starting with '0', then a char that is neither a flag nor a digit, do not start with a flag char. */
  lemma NoFlagAfterFlags(w: string, c: char)
    requires Decimal.AllDigits(w) && (w == [] || w[0] != '0')
    requires !IsFlagChar(c)
    ensures !IsFlagChar((w + [c])[0])
  {
    if w != [] {
      assert (w + [c])[0] == w[0] && Decimal.IsDigit(w[0]);
    }
  }

  /** A format of flag chars, digits not starting with '0', and a conversion char reads back as those three. */
  lemma SpecReads(fs: string, w: string, c: char)
    requires AllFlagChars(fs) && Decimal.AllDigits(w) && (w == [] || w[0] != '0')
    requires !IsFlagChar(c) && !Decimal.IsDigit(c)
    ensures ReadSpec("%" + fs + w + [c]) == Some(Spec(BitsOf(set x | x in fs), Decimal.DigitsValue(w), c))
  {
    hide *;
    NoFlagAfterFlags(w, c);
    LeadingDigitsBefore(w, c);
    ReadFlagsOf(fs, w + [c]);
    var fmt := "%" + fs + w + [c];
    assert fmt[1..] == fs + (w + [c]);
    assert (fs + (w + [c]))[|fs|..] == w + [c];
    assert (w + [c])[|w|..] == [c];
    ReadSpecOfParts(fmt, set x | x in fs, |fs|, w, c);
  }

  // ---------------------------------------------------------- date format

  /** The strftime format of a date field: a '%' before each of its chars. */
  function Interleaved(format: string): (r: string)
    ensures |r| == 2 * |format|
  {
    if format == [] then [] else ['%', format[0]] + Interleaved(format[1..])
  }

  lemma {:induction false} InterleavedChars(format: string)
    ensures forall i :: 0 <= i < |format| ==> Interleaved(format)[2 * i] == '%' && Interleaved(format)[2 * i + 1] == format[i]
    decreases |format|
  {
    if format != [] {
      InterleavedChars(format[1..]);
      var r := Interleaved(format);
      forall i | 0 < i < |format|
        ensures r[2 * i] == '%' && r[2 * i + 1] == format[i]
      {
        assert r[2 * i] == Interleaved(format[1..])[2 * (i - 1)];
        assert r[2 * i + 1] == Interleaved(format[1..])[2 * (i - 1) + 1];
      }
    }
  }

  /** The chars of the format sit at the odd positions of its expansion, so the expansion determines the format. */
  lemma InterleavedInjective(a: string, b: string)
    requires Interleaved(a) == Interleaved(b)
    ensures a == b
  {
    InterleavedChars(a);
    InterleavedChars(b);
    assert |a| == |b|;
    forall i | 0 <= i < |a|
      ensures a[i] == b[i]
    {
      assert Interleaved(a)[2 * i + 1] == Interleaved(b)[2 * i + 1];
    }
  }

  /** The expansion loop of _format_write_date; formats of 32 chars and more do not fit time_format. */
  method ExpandDateFormat(format: string) returns (r: Option<string>)
    ensures r.Some? <==> |format| < TimeFormatSize / 2
    ensures r.Some? ==> r.value == Interleaved(format)
  {
    if |format| >= TimeFormatSize / 2 {
      return None;
    }
    var buf := new char[2 * |format|];
    InterleavedChars(format);
    var i := 0;
    while i < |format|
      invariant 0 <= i <= |format|
      invariant forall j :: 0 <= j < 2 * i ==> buf[j] == Interleaved(format)[j]
    {
      buf[2 * i] := '%';
      buf[2 * i + 1] := format[i];
      i := i + 1;
    }
    r := Some(buf[..]);
  }

  /** _format_write_date: ctime's line for an empty format, otherwise strftime of the expanded format. */
  function DateOutput(t: int, format: string): (r: Emit)
    ensures r == Ctime(t) <==> format == []
    ensures r == DateFormatTooLong <==> |format| >= TimeFormatSize / 2
    ensures r.Strftime? ==> r.t == t && |r.fmt| == 2 * |format|
    ensures r.Strftime? ==> forall i :: 0 <= i < |format| ==> r.fmt[2 * i] == '%' && r.fmt[2 * i + 1] == format[i]
  {
    if format == [] then Ctime(t)
    else if |format| < TimeFormatSize / 2 then InterleavedChars(format); Strftime(Interleaved(format), t)
    else DateFormatTooLong
  }

  // ---------------------------------------------------------- format_write

  /** What one node writes: nothing for an attribute the file info does not know. */
  function NodeOutput(node: P.Node, info: FI.Info, env: FI.Env): (r: seq<Emit>)
    ensures |r| <= 1
    ensures r == [] <==> node.AttrNode? && FI.FieldKind(node.attr) == FI.NoKind
    ensures r == [Fault] <==> node.AttrNode? && node.attr == 'S' && info.sb.size == 0
  {
    match node
    case TextNode(flags, width, _, text) => [Puts(Padded(text, width, flags & P.FlagMinus != 0))]
    case AttrNode(flags, width, _, attr, format) =>
      match FI.GetAttr(info, attr, env)
      case NoSuchField => []
      case Undefined => [Fault]
      case Found(a) =>
        if FI.Flags(a) & FI.FlagString != 0 then [Puts(Padded(FI.GetString(a).value, width, flags & P.FlagMinus != 0))]
        else if FI.Flags(a) & FI.FlagInteger != 0 then [Printf(IntegerFormat(width, flags, if attr == 'm' then 'o' else 'd'), FI.GetInteger(a))]
        else [DateOutput(FI.GetTime(a), format)]
  }

  /** The nodes written in order; nothing follows a fault. */
  function Written(nodes: seq<P.Node>, info: FI.Info, env: FI.Env): seq<Emit>
  {
    if nodes == [] then []
    else
      var e := NodeOutput(nodes[0], info, env);
      if e == [Fault] then e else e + Written(nodes[1..], info, env)
  }

  /** format_write: nothing at all when the file cannot be read. */
  function FormatWritten(nodes: seq<P.Node>, cli: string, path: string, st: Option<FI.Stat>, env: FI.Env): (r: seq<Emit>)
    ensures st.None? ==> r == []
    ensures |r| <= |nodes|
    ensures forall i :: 0 <= i < |r| - 1 ==> r[i] != Fault
  {
    match FI.Get(cli, path, st)
    case None => []
    case Some(info) => WrittenBounds(nodes, info, env); Written(nodes, info, env)
  }

  /** Each node writes at most one piece, and a fault is always the last one. */
  lemma {:induction false} WrittenBounds(nodes: seq<P.Node>, info: FI.Info, env: FI.Env)
    ensures |Written(nodes, info, env)| <= |nodes|
    ensures forall i :: 0 <= i < |Written(nodes, info, env)| - 1 ==> Written(nodes, info, env)[i] != Fault
    decreases |nodes|
  {
    if nodes != [] {
      WrittenBounds(nodes[1..], info, env);
    }
  }

  /** A text format without fields writes itself. */
  lemma PlainFormatWritesItself(s: string, info: FI.Info, env: FI.Env)
    requires L.Plain(s) && s != [] && |s| < L.TextBufferMax
    ensures Written(P.FormatParsed(s).nodes, info, env) == [Puts(s)]
  {
    hide P.FormatParsed, L.Lex;
    P.PlainTextParses(s);
    assert Written([P.TextNode(0, -1, -1, s)], info, env) == [Puts(s)];
  }

  /** "%y": the lexer accepts the field char, the file info does not know it, and nothing is written. */
  lemma UnknownFieldWritesNothing(info: FI.Info, env: FI.Env)
    ensures '\0' !in "%y"
    ensures Written(P.FormatParsed("%y").nodes, info, env) == []
  {
    hide P.FormatParsed, L.Lex;
    P.FieldParses("", 'y');
    assert "" + ['%', 'y'] == "%y";
    var nodes := [P.AttrNode(0, -1, -1, 'y', [])];
    assert P.FormatParsed("%y").nodes == nodes;
    assert FI.GetAttr(info, 'y', env) == FI.NoSuchField;
    assert Written(nodes, info, env) == [];
  }

  /** "%5m": the permission bits in octal, right-aligned in five columns. */
  lemma ModeWithWidthIsOctal(info: FI.Info, env: FI.Env)
    ensures '\0' !in "%5m"
    ensures Written(P.FormatParsed("%5m").nodes, info, env) == [Printf("%5o", Wrap32(info.sb.mode % 512))]
  {
    hide P.FormatParsed, L.Lex;
    P.WidthFieldParses("", "5", 'm');
    assert "" + "%" + "5" + ['m'] == "%5m";
    assert Decimal.DigitsValue("5") == 5 && P.IntOfDigitsValue(5) == 5;
    var nodes := [P.AttrNode(0, 5, -1, 'm', [])];
    assert P.FormatParsed("%5m").nodes == nodes;
    assert IntegerFormat(5, 0, 'o') == "%5o";
    assert FI.GetAttr(info, 'm', env) == FI.Found(FI.IntAttr(Wrap32(info.sb.mode % 512)));
    assert Written(nodes, info, env) == [Printf("%5o", Wrap32(info.sb.mode % 512))];
  }

  /** "%TY": the year of the modification time, as the strftime format "%Y". */
  lemma DateFieldExpands(info: FI.Info, env: FI.Env)
    ensures '\0' !in "%TY"
    ensures Written(P.FormatParsed("%TY").nodes, info, env) == [Strftime("%Y", info.sb.mtime)]
  {
    hide P.FormatParsed, L.Lex;
    P.DateFormatParses("", 'T', "Y");
    assert "" + ['%', 'T'] + "Y" == "%TY";
    var nodes := [P.AttrNode(0, -1, -1, 'T', "Y")];
    assert P.FormatParsed("%TY").nodes == nodes;
    assert FI.GetAttr(info, 'T', env) == FI.Found(FI.TimeAttr(info.sb.mtime));
    assert Interleaved("Y") == "%Y";
    assert Written(nodes, info, env) == [Strftime("%Y", info.sb.mtime)];
  }

  /** "%8f": the file name right-aligned with spaces. */
  lemma NameWithWidth(info: FI.Info, env: FI.Env)
    requires |FI.Basename(info.path)| < 8
    ensures '\0' !in "%8f"
    ensures Written(P.FormatParsed("%8f").nodes, info, env)
         == [Puts(Spaces(8 - |FI.Basename(info.path)|) + FI.Basename(info.path))]
  {
    hide P.FormatParsed, L.Lex;
    P.WidthFieldParses("", "8", 'f');
    assert "" + "%" + "8" + ['f'] == "%8f";
    assert Decimal.DigitsValue("8") == 8 && P.IntOfDigitsValue(8) == 8;
    var nodes := [P.AttrNode(0, 8, -1, 'f', [])];
    assert P.FormatParsed("%8f").nodes == nodes;
    assert FI.GetAttr(info, 'f', env) == FI.Found(FI.StrAttr(false, FI.Basename(info.path)));
  }

  /** One node, written with the methods that build the padded string, the integer format and the date format. */
  method WriteNode(node: P.Node, info: FI.Info, env: FI.Env) returns (e: seq<Emit>)
    ensures e == NodeOutput(node, info, env)
  {
    match node
    case TextNode(flags, width, _, text) =>
      var s := WriteString(text, width, flags);
      e := [Puts(s)];
    case AttrNode(flags, width, _, attr, format) =>
      match FI.GetAttr(info, attr, env)
      case NoSuchField => e := [];
      case Undefined => e := [Fault];
      case Found(a) =>
        if FI.Flags(a) & FI.FlagString != 0 {
          var s := WriteString(FI.GetString(a).value, width, flags);
          e := [Puts(s)];
        } else if FI.Flags(a) & FI.FlagInteger != 0 {
          var fmt := BuildIntegerFormat(width, flags, if attr == 'm' then 'o' else 'd');
          e := [Printf(fmt, FI.GetInteger(a))];
        } else if format == [] {
          e := [Ctime(FI.GetTime(a))];
        } else {
          var expanded := ExpandDateFormat(format);
          e := if expanded.Some? then [Strftime(expanded.value, FI.GetTime(a))] else [DateFormatTooLong];
        }
  }

  /** format_write: the loop over the nodes of a successful parse. */
  method FormatWrite(nodes: seq<P.Node>, cli: string, path: string, st: Option<FI.Stat>, env: FI.Env) returns (out: seq<Emit>)
    ensures out == FormatWritten(nodes, cli, path, st, env)
  {
    out := [];
    var got := FI.Get(cli, path, st);
    if got.None? {
      return;
    }
    var info := got.value;
    var i := 0;
    while i < |nodes|
      invariant 0 <= i <= |nodes|
      invariant out + Written(nodes[i..], info, env) == Written(nodes, info, env)
    {
      var e := WriteNode(nodes[i], info, env);
      assert nodes[i..][1..] == nodes[i + 1..];
      if e == [Fault] {
        out := out + e;
        return;
      }
      out := out + e;
      i := i + 1;
    }
  }
}
