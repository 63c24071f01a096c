/**
 * The INI reader of options_ini.c: strict integer and boolean parsing, and
 * the per-key updates the [general] and [logging] sections make to the
 * options. The file itself is read by the inih library, which is not part of
 * this model: a configuration is the sequence of (section, name, value)
 * lines it hands to the handler.
 */
module OptionsIni {
  import opened Wrappers
  import opened Words
  import Decimal
  import opened Options
  import opened Log

  /** LONG_MAX and LONG_MIN of a 64-bit long. */
  const LongMax: int := Int64Max
  const LongMin: int := -Int64Max - 1

  /** isspace in the C locale: space, and '\t' through '\r'. */
  predicate IsSpace(c: char)
  {
    c == ' ' || '\t' <= c <= '\r'
  }

  /** The number of white-space characters strtol skips at the start of s. */
  function LeadingSpaces(s: string): (r: nat)
    ensures r <= |s| && forall i :: 0 <= i < r ==> IsSpace(s[i])
    ensures r < |s| ==> !IsSpace(s[r])
  {
    if s == [] || !IsSpace(s[0]) then 0 else 1 + LeadingSpaces(s[1..])
  }

  /** What strtol(s, &tail, 10) returns: the value and the index tail points to. */
  datatype Conversion = Conversion(value: int, tail: nat)

  /** A value out of range saturates at LONG_MAX or LONG_MIN. */
  function ClampLong(v: int): (r: int)
    ensures LongMin <= r <= LongMax
    ensures LongMin <= v <= LongMax ==> r == v
  {
    if v > LongMax then LongMax else if v < LongMin then LongMin else v
  }

  /** Whether a sign follows the white space. */
  predicate Signed(s: string)
  {
    var w := LeadingSpaces(s);
    w < |s| && (s[w] == '+' || s[w] == '-')
  }

  /** Where the digits strtol reads start: after the white space and the sign. */
  function DigitsStart(s: string): (r: nat)
    ensures r <= |s|
  {
    if Signed(s) then LeadingSpaces(s) + 1 else LeadingSpaces(s)
  }

  /** Whether the sign is '-'. */
  predicate Negative(s: string)
  {
    Signed(s) && s[LeadingSpaces(s)] == '-'
  }

  /**
   * strtol in base 10: white space, an optional sign, then as many digits as
   * follow. Without any digit nothing is converted: the value is 0 and the
   * tail is the start of the string.
   */
  function Strtol(s: string): (r: Conversion)
    ensures r.tail <= |s|
    ensures LongMin <= r.value <= LongMax
    ensures r.tail == 0 ==> r.value == 0
    ensures r.tail != 0 ==> DigitsStart(s) < r.tail && Decimal.AllDigits(s[DigitsStart(s)..r.tail])
    ensures r.tail != 0 && r.tail < |s| ==> !Decimal.IsDigit(s[r.tail])
  {
    var start := DigitsStart(s);
    var digits := Decimal.LeadingDigits(s[start..]);
    if digits == [] then Conversion(0, 0)
    else
      var v: int := Decimal.DigitsValue(digits);
      assert s[start..start + |digits|] == digits;
      Conversion(ClampLong(if Negative(s) then -v else v), start + |digits|)
  }

  /**
   * _options_parse_integer as written: accepted when the tail is the end of
   * the string and the value lies in [min, max]. The empty string converts
   * nothing, yet its tail is its end, so it is accepted as 0.
   */
  function ParseIntegerAsWritten(value: Option<string>, min: int, max: int): (r: Option<int>)
    ensures r.Some? ==> min <= r.value <= max
  {
    match value
    case None => None
    case Some(v) =>
      var c := Strtol(v);
      if c.tail == |v| && min <= c.value && c.value <= max then Some(c.value) else None
  }

  /**
   * _options_parse_integer as evidently intended: as written, but a value
   * from which strtol converts nothing is refused.
   */
  function ParseInteger(value: Option<string>, min: int, max: int): (r: Option<int>)
    ensures r.Some? ==> min <= r.value <= max
  {
    match value
    case None => None
    case Some(v) =>
      var c := Strtol(v);
      if c.tail != 0 && c.tail == |v| && min <= c.value && c.value <= max then Some(c.value) else None
  }

  /** The empty string, which an INI line "key =" gives, is accepted as 0 as written and refused as intended. */
  lemma EmptyValueReadAsZero()
    ensures ParseIntegerAsWritten(Some(""), LevelNone, LevelFatal) == Some(0)
    ensures ParseIntegerAsWritten(Some(""), 0, Int32Max) == Some(0)
    ensures ParseInteger(Some(""), 0, Int32Max).None?
  {
  }

  /**
   * A value accepted as intended is white space, an optional sign and at
   * least one digit, with nothing after them.
   */
  lemma ParseIntegerIsDecimal(v: string, min: int, max: int)
    requires ParseInteger(Some(v), min, max).Some?
    ensures DigitsStart(v) < |v| && Decimal.AllDigits(v[DigitsStart(v)..])
  {
    var start := DigitsStart(v);
    var digits := Decimal.LeadingDigits(v[start..]);
    assert digits != [];
    assert start + |digits| == |v|;
    assert v[start..] == digits;
  }

  /** strtol reads a string of digits whole. */
  lemma {:induction false} StrtolDigits(d: string)
    requires Decimal.AllDigits(d) && d != []
    ensures Strtol(d) == Conversion(ClampLong(Decimal.DigitsValue(d)), |d|)
  {
    assert LeadingSpaces(d) == 0 by { assert !IsSpace(d[0]); }
    assert d[0..] == d;
    Decimal.LeadingDigitsOfDigits(d);
  }

  lemma MinusSign(d: string)
    requires d != [] && Decimal.IsDigit(d[0])
    ensures DigitsStart(['-'] + d) == 1 && Negative(['-'] + d) && (['-'] + d)[1..] == d
  {
    var s := ['-'] + d;
    assert s[0] == '-' && !IsSpace(s[0]);
    assert LeadingSpaces(s) == 0;
  }

  /** strtol reads a '-' and a string of digits whole, as the negated value. */
  lemma StrtolNegative(d: string)
    requires Decimal.AllDigits(d) && d != []
    ensures Strtol(['-'] + d) == Conversion(ClampLong(0 - Decimal.DigitsValue(d)), 1 + |d|)
  {
    var s := ['-'] + d;
    MinusSign(d);
    Decimal.LeadingDigitsOfDigits(d);
    hide DigitsStart, Negative, LeadingSpaces, Signed, Decimal.DigitsValue, Decimal.LeadingDigits, Decimal.AllDigits;
    assert Decimal.LeadingDigits(s[DigitsStart(s)..]) == d;
    StrtolOf(s, d);
  }

  /** strtol once the digits after the sign are known. */
  lemma StrtolOf(s: string, digits: string)
    requires DigitsStart(s) <= |s| && Decimal.LeadingDigits(s[DigitsStart(s)..]) == digits && digits != []
    ensures var v: int := Decimal.DigitsValue(digits);
      Strtol(s) == Conversion(ClampLong(if Negative(s) then -v else v), DigitsStart(s) + |digits|)
  {
  }

  /** Every number in range written in decimal is read back. */
  lemma ParseIntegerReadsDecimal(n: int, min: int, max: int)
    requires min <= n <= max && LongMin <= n <= LongMax
    ensures ParseInteger(Some(Decimal.IntToString(n)), min, max) == Some(n)
  {
    if n < 0 {
      Decimal.NatRoundTrip(-n);
      Decimal.NatToStringShape(-n);
      StrtolNegative(Decimal.NatToString(-n));
    } else {
      Decimal.NatRoundTrip(n);
      Decimal.NatToStringShape(n);
      StrtolDigits(Decimal.NatToString(n));
    }
  }

  /** _options_parse_bool: "yes" is true, "no" is false, anything else is refused. */
  function ParseBool(value: Option<string>): (r: Option<bool>)
    ensures r.Some? <==> value == Some("yes") || value == Some("no")
    ensures r == Some(true) <==> value == Some("yes")
  {
    if value == Some("yes") then Some(true)
    else if value == Some("no") then Some(false)
    else None
  }

  /** _options_set_string: a present value replaces the old one; an absent one keeps it. */
  function SetString(value: Option<string>, dst: Option<string>): (r: Option<string>)
    ensures r.Some? <==> value.Some? || dst.Some?
  {
    if value.Some? then value else dst
  }

  /** _options_handle_logging_section. */
  function Logging(s: Settings, name: string, value: Option<string>): (r: Settings)
    ensures r.(logLevel := s.logLevel, logColor := s.logColor) == s
    ensures r.logLevel != s.logLevel ==> name == "verbosity" && LevelNone <= r.logLevel <= LevelFatal
    ensures r.logColor != s.logColor ==> name == "color"
  {
    if name == "verbosity" then
      match ParseInteger(value, LevelNone, LevelFatal)
      case Some(level) => s.(logLevel := level)
      case None => s
    else if name == "color" then
      match ParseBool(value)
      case Some(b) => s.(logColor := b)
      case None => s
    else s
  }

  /** _options_handle_general_section. */
  function General(s: Settings, name: string, value: Option<string>): (r: Settings)
    ensures r.logLevel == s.logLevel && r.logColor == s.logColor
    ensures r.(flags := s.flags, follow := s.follow, maxDepth := s.maxDepth,
               regexType := s.regexType, orderby := s.orderby, printf := s.printf) == s
    ensures r.maxDepth != s.maxDepth ==> name == "max-depth" && 0 <= r.maxDepth <= Int32Max
  {
    if name == "quote" then
      match ParseBool(value)
      case Some(true) => s.(flags := s.flags + {Quote})
      case Some(false) => s.(flags := s.flags - {Quote})
      case None => s
    else if name == "follow-links" then
      match ParseBool(value)
      case Some(b) => s.(follow := b)
      case None => s
    else if name == "max-depth" then
      match ParseInteger(value, 0, Int32Max)
      case Some(depth) => s.(maxDepth := depth)
      case None => s
    else if name == "regex-type" then s.(regexType := SetString(value, s.regexType))
    else if name == "order-by" then s.(orderby := SetString(value, s.orderby))
    else if name == "printf" then s.(printf := SetString(value, s.printf))
    else s
  }

  /** _options_ini_handler: dispatch on the section name. */
  function Handled(s: Settings, section: string, name: string, value: Option<string>): (r: Settings)
    ensures section != "logging" ==> r.logLevel == s.logLevel && r.logColor == s.logColor
    ensures section != "general" ==> r.(logLevel := s.logLevel, logColor := s.logColor) == s
  {
    if section == "general" then General(s, name, value)
    else if section == "logging" then Logging(s, name, value)
    else s
  }

  /** The keys the handler knows. */
  predicate Known(section: string, name: string)
  {
    (section == "general" && name in {"quote", "follow-links", "max-depth", "regex-type", "order-by", "printf"}) ||
    (section == "logging" && name in {"verbosity", "color"})
  }

  /** Unknown sections and unknown keys change nothing. */
  lemma UnknownIgnored(s: Settings, section: string, name: string, value: Option<string>)
    requires !Known(section, name)
    ensures Handled(s, section, name, value) == s
  {
  }

  /** verbosity takes a value in NONE..FATAL and otherwise keeps the old one; nothing else changes. */
  lemma VerbosityInRange(s: Settings, value: Option<string>)
    ensures var t := Handled(s, "logging", "verbosity", value);
      t.(logLevel := s.logLevel) == s &&
      (t.logLevel != s.logLevel ==> LevelNone <= t.logLevel <= LevelFatal && ParseInteger(value, LevelNone, LevelFatal) == Some(t.logLevel)) &&
      (ParseInteger(value, LevelNone, LevelFatal).None? ==> t.logLevel == s.logLevel)
  {
  }

  /** max-depth takes a value in 0..INT32_MAX and otherwise keeps the old one; nothing else changes. */
  lemma MaxDepthInRange(s: Settings, value: Option<string>)
    ensures var t := Handled(s, "general", "max-depth", value);
      t.(maxDepth := s.maxDepth) == s &&
      (t.maxDepth != s.maxDepth ==> 0 <= t.maxDepth <= Int32Max) &&
      (ParseInteger(value, 0, Int32Max).None? ==> t.maxDepth == s.maxDepth)
  {
  }

  /** quote sets or clears FLAG_QUOTE and leaves every other flag and field alone. */
  lemma QuoteOnlyTouchesQuote(s: Settings, value: Option<string>)
    ensures var t := Handled(s, "general", "quote", value);
      t.(flags := s.flags) == s && t.flags - {Quote} == s.flags - {Quote} &&
      (Quote in t.flags <==> value == Some("yes") || (value != Some("no") && Quote in s.flags))
  {
  }

  /** A string option is replaced by a present value and kept when the value is absent. */
  lemma StringOptionReplaced(s: Settings, name: string, value: Option<string>)
    requires name in {"regex-type", "order-by", "printf"}
    ensures var t := Handled(s, "general", name, value);
      var field := (r: Settings) => if name == "regex-type" then r.regexType else if name == "order-by" then r.orderby else r.printf;
      field(t) == (if value.Some? then value else field(s)) &&
      t.(regexType := s.regexType, orderby := s.orderby, printf := s.printf) == s
  {
  }

  /** A configuration: the (section, name, value) lines in file order. */
  function Loaded(s: Settings, lines: seq<(string, string, Option<string>)>): (r: Settings)
    ensures (forall i :: 0 <= i < |lines| ==> !Known(lines[i].0, lines[i].1)) ==> r == s
    ensures (forall i :: 0 <= i < |lines| ==> lines[i].0 != "logging") ==> r.logLevel == s.logLevel
    decreases |lines|
  {
    if lines == [] then s
    else
      var (section, name, value) := lines[|lines| - 1];
      Handled(Loaded(s, lines[..|lines| - 1]), section, name, value)
  }

  /** The last present value a configuration gives a key, or the old one. */
  function LastValue(lines: seq<(string, string, Option<string>)>, section: string, name: string, old_: Option<string>): Option<string>
    decreases |lines|
  {
    if lines == [] then old_
    else
      var (sec, nm, value) := lines[|lines| - 1];
      if sec == section && nm == name && value.Some? then value
      else LastValue(lines[..|lines| - 1], section, name, old_)
  }

  /** After reading a whole configuration the format string is the last one it gives. */
  lemma {:induction false} LastPrintfWins(s: Settings, lines: seq<(string, string, Option<string>)>)
    ensures Loaded(s, lines).printf == LastValue(lines, "general", "printf", s.printf)
    decreases |lines|
  {
    if lines != [] {
      LastPrintfWins(s, lines[..|lines| - 1]);
    }
  }

  /** Reading a configuration never takes the log level out of NONE..FATAL. */
  lemma {:induction false} LoadedKeepsLogLevel(s: Settings, lines: seq<(string, string, Option<string>)>)
    requires LevelNone <= s.logLevel <= LevelFatal
    ensures LevelNone <= Loaded(s, lines).logLevel <= LevelFatal
    decreases |lines|
  {
    if lines != [] {
      LoadedKeepsLogLevel(s, lines[..|lines| - 1]);
    }
  }

  method HandleLoggingSection(opts: Options, name: string, value: Option<string>)
    modifies opts
    ensures opts.Snapshot() == Logging(old(opts.Snapshot()), name, value)
  {
    if name == "verbosity" {
      var level := ParseInteger(value, LevelNone, LevelFatal);
      if level.Some? {
        opts.logLevel := level.value;
      }
    } else if name == "color" {
      var b := ParseBool(value);
      if b.Some? {
        opts.logColor := b.value;
      }
    }
  }

  method HandleGeneralSection(opts: Options, name: string, value: Option<string>)
    modifies opts
    ensures opts.Snapshot() == General(old(opts.Snapshot()), name, value)
  {
    if name == "quote" {
      var set_ := ParseBool(value);
      if set_.Some? {
        if set_.value {
          opts.flags := opts.flags + {Quote};
        } else {
          opts.flags := opts.flags - {Quote};
        }
      }
    } else if name == "follow-links" {
      var b := ParseBool(value);
      if b.Some? {
        opts.follow := b.value;
      }
    } else if name == "max-depth" {
      var depth := ParseInteger(value, 0, Int32Max);
      if depth.Some? {
        opts.maxDepth := depth.value;
      }
    } else if name == "regex-type" {
      opts.regexType := SetString(value, opts.regexType);
    } else if name == "order-by" {
      opts.orderby := SetString(value, opts.orderby);
    } else if name == "printf" {
      opts.printf := SetString(value, opts.printf);
    }
  }

  /** _options_ini_handler: always answers 1, so inih never stops on a key. */
  method IniHandler(opts: Options, section: string, name: string, value: Option<string>) returns (r: int)
    modifies opts
    ensures r == 1
    ensures opts.Snapshot() == Handled(old(opts.Snapshot()), section, name, value)
  {
    if section == "general" {
      HandleGeneralSection(opts, name, value);
    } else if section == "logging" {
      HandleLoggingSection(opts, name, value);
    }
    r := 1;
  }
}
