/**
 * The format-string parser of format-parser.c. It walks the lexer's tokens
 * with a stack of states and a cache (flags, width, precision, a text buffer,
 * a date format and an attribute char), and turns them into nodes: a text
 * node for each run of text and escape sequences, an attribute node for each
 * '%'-field.
 *
 * As for the lexer, one function per C step states what the step does to the
 * parser context, and the class Parser performs the steps on its fields.
 */
module FormatParser {
  import opened Wrappers
  import Decimal
  import Words
  import FormatFields
  import L = FormatLexer

  /** FORMAT_FMT_BUFFER_MAX: bound of a number token's copy and of a date format. */
  const FmtBufferMax: nat := 128

  /** FormatPrintFlag. */
  const FlagZero: bv32 := 1
  const FlagMinus: bv32 := 2
  const FlagHash: bv32 := 4
  const FlagSpace: bv32 := 8
  const FlagPlus: bv32 := 16

  datatype ParserState = AtNone | InText | InFlags | InWidth | InAttr | InDateAttr

  datatype StepResult = Next | Abort | Continue

  /** A parsed node; width and precision are -1 when not given. */
  datatype Node =
    | TextNode(flags: bv32, width: int, precision: int, text: string)
    | AttrNode(flags: bv32, width: int, precision: int, attr: char, format: string)

  /** FormatParserCtx: the state stack (top last), the cache and the nodes found. */
  datatype PCtx = PCtx(stack: seq<ParserState>, flags: bv32, width: int, precision: int,
                       buffer: string, format: string, attr: char, nodes: seq<Node>)

  /** The C string a char buffer holds: its chars up to the first NUL. */
  function CString(s: string): (r: string)
    ensures '\0' !in r && |r| <= |s| && r == s[..|r|]
    ensures |r| < |s| ==> s[|r|] == '\0'
  {
    if s == [] || s[0] == '\0' then []
    else [s[0]] + CString(s[1..])
  }

  /** A buffer without NUL is its own C string. */
  lemma CStringOfPlain(s: string)
    requires '\0' !in s
    ensures CString(s) == s
  {
  }

  /** A NUL cuts the C string there. */
  lemma CStringAtNul(a: string, b: string)
    requires '\0' !in a
    ensures CString(a + ['\0'] + b) == a
  {
    var s := a + ['\0'] + b;
    var r := CString(s);
    assert s[|a|] == '\0';
    assert r == s[..|a|];
  }

  /** _format_parser_reset_cache: the attribute char survives. */
  function Reset(p: PCtx): PCtx
  {
    p.(width := -1, precision := -1, flags := 0, buffer := [], format := [])
  }

  /** _format_attribute_node_new. */
  function AttrNodeOf(p: PCtx): Node
  {
    AttrNode(p.flags, p.width, p.precision, p.attr, CString(p.format))
  }

  /** _format_text_node_new: strcpy stops at the first NUL of the buffer. */
  function TextNodeOf(p: PCtx): Node
  {
    TextNode(p.flags, p.width, p.precision, CString(p.buffer))
  }

  function Top(p: PCtx): ParserState
    requires p.stack != []
  {
    p.stack[|p.stack| - 1]
  }

  /** _format_parser_pop: leaving the text state emits a text node, leaving the date state an attribute node. */
  function Popped(p: PCtx): PCtx
    requires p.stack != []
  {
    var q := p.(stack := p.stack[..|p.stack| - 1]);
    if Top(p) == InText then Reset(q.(nodes := q.nodes + [TextNodeOf(q)]))
    else if Top(p) == InDateAttr then Reset(q.(nodes := q.nodes + [AttrNodeOf(q)]))
    else q
  }

  function Pushed(p: PCtx, s: ParserState): PCtx
  {
    p.(stack := p.stack + [s])
  }

  /** The chars of s before its first occurrence of ch, all of s when it has none. */
  function Before(s: string, ch: char): (r: string)
    ensures |r| <= |s| && r == s[..|r|] && ch !in r
    ensures |r| < |s| <==> ch in s
    ensures |r| < |s| ==> s[|r|] == ch
  {
    if s == [] then []
    else if s[0] == ch then []
    else [s[0]] + Before(s[1..], ch)
  }

  /**
   * The int atoi returns for a digit string of value v: glibc's atoi is
   * (int) strtol(s, NULL, 10), so v saturates at LONG_MAX and is then cut to
   * its low 32 bits.
   */
  function IntOfDigitsValue(v: nat): (r: int)
    ensures Words.Int32Min <= r <= Words.Int32Max
    ensures v <= Words.Int32Max ==> r == v
    ensures v <= Words.Int64Max ==> (r - v) % Words.Two32 == 0
  {
    Words.Wrap32(if v > Words.Int64Max then Words.Int64Max else v)
  }

  /** atoi on the text of a number token, which holds only digits and '.': its leading digits as an int. */
  function Atoi(s: string): (r: int)
    ensures Words.Int32Min <= r <= Words.Int32Max
    ensures s == [] || !Decimal.IsDigit(s[0]) ==> r == 0
    ensures Decimal.DigitsValue(Decimal.LeadingDigits(s)) <= Words.Int32Max ==> r == Decimal.DigitsValue(Decimal.LeadingDigits(s))
  {
    IntOfDigitsValue(Decimal.DigitsValue(Decimal.LeadingDigits(s)))
  }

  /** An eleven-digit width wraps: atoi("99999999999") is 1215752191, not 99999999999. */
  lemma AtoiWrapsLongWidth()
    ensures Atoi("99999999999") == 1215752191
  {
    ElevenNines();
    hide Decimal.DigitsValue;
    assert 99999999999 == 23 * Words.Two32 + 1215752191;
  }

  lemma ElevenNines()
    ensures Decimal.LeadingDigits("99999999999") == "99999999999"
    ensures Decimal.DigitsValue("99999999999") == 99999999999
  {
    Decimal.LeadingDigitsOfDigits("99999999999");
    NinesValue();
  }

  lemma NinesValue()
    ensures Decimal.DigitsValue("99999999999") == 99999999999
  {
    var s: string := "9";
    var v: nat := 9;
    assert Decimal.DigitsValue(s) == v;
    hide Decimal.DigitsValue;
    for k := 1 to 11
      invariant |s| == k && Decimal.AllDigits(s) && (forall i :: 0 <= i < k ==> s[i] == '9')
      invariant Decimal.DigitsValue(s) == v
      invariant v + 1 == Pow10(k)
    {
      DigitsSnoc(s, '9');
      s := s + "9";
      v := v * 10 + 9;
    }
    assert s == "99999999999";
  }

  function Pow10(k: nat): nat
  {
    if k == 0 then 1 else 10 * Pow10(k - 1)
  }

  lemma DigitsSnoc(s: string, c: char)
    requires Decimal.AllDigits(s) && Decimal.IsDigit(c)
    ensures Decimal.AllDigits(s + [c])
    ensures Decimal.DigitsValue(s + [c]) == Decimal.DigitsValue(s) * 10 + (c as int - '0' as int)
  {
    assert (s + [c])[..|s|] == s;
  }

  /**
   * _format_parser_begin_width: a number token of fewer than 128 chars sets
   * the width from the digits before its '.', and the precision from those
   * after it when there is a '.'; a longer one leaves both as they are.
   */
  function WithWidth(p: PCtx, t: L.Token): (r: PCtx)
    ensures r.(width := p.width, precision := p.precision) == Pushed(p, InWidth)
    ensures |t.text| >= FmtBufferMax ==> r == Pushed(p, InWidth)
    ensures |t.text| < FmtBufferMax ==> r.width == Atoi(Before(t.text, '.'))
    ensures |t.text| < FmtBufferMax && '.' !in t.text ==> r.precision == p.precision
  {
    var q := Pushed(p, InWidth);
    if |t.text| < FmtBufferMax then
      var w := Before(t.text, '.');
      if |w| < |t.text| then q.(precision := Atoi(t.text[|w| + 1..]), width := Atoi(w))
      else assert w == t.text[..|t.text|] == t.text; q.(width := Atoi(t.text))
    else q
  }

  /** _format_parser_begin_attribute: the attribute node, then a fresh cache. */
  function WithAttribute(p: PCtx, t: L.Token): PCtx
    requires |t.text| >= 1
  {
    var q := p.(attr := t.text[0]);
    Reset(q.(nodes := q.nodes + [AttrNodeOf(q)]))
  }

  /** _format_parser_begin_date_attribute. */
  function WithDateAttribute(p: PCtx, t: L.Token): PCtx
    requires |t.text| >= 1
  {
    Pushed(p.(format := [], attr := t.text[0]), InDateAttr)
  }

  /** The flag bit of a flag char; an unknown char sets none. */
  function FlagBit(ch: char): bv32
  {
    match ch
    case '-' => FlagMinus
    case '0' => FlagZero
    case '#' => FlagHash
    case ' ' => FlagSpace
    case '+' => FlagPlus
    case _ => 0
  }

  /** The char a one-letter escape stands for; any other char stands for itself. */
  function Unescape(ch: char): char
  {
    match ch
    case 'a' => 7 as char
    case 'b' => 8 as char
    case 'f' => 12 as char
    case 'n' => 10 as char
    case 'r' => 13 as char
    case 't' => 9 as char
    case 'v' => 11 as char
    case '0' => 0 as char
    case _ => ch
  }

  /** The value of ch as a digit in base 8 or 16, if it is one. */
  function DigitValue(ch: char, base: nat): Option<nat>
  {
    if '0' <= ch <= '9' && (ch as int - '0' as int) < base then Some(ch as int - '0' as int)
    else if base == 16 && 'a' <= ch <= 'f' then Some(ch as int - 'a' as int + 10)
    else if base == 16 && 'A' <= ch <= 'F' then Some(ch as int - 'A' as int + 10)
    else None
  }

  /** Accumulates the digits of s valid in base, stopping at the first other char. */
  function Accumulate(s: string, base: nat, acc: nat): nat
  {
    if s == [] || DigitValue(s[0], base).None? then acc
    else Accumulate(s[1..], base, acc * base + DigitValue(s[0], base).value)
  }

  /** strtol(s, NULL, base) for base 8 or 16 on a string that starts with a digit: base 16 skips a "0x" prefix. */
  function Strtol(s: string, base: nat): nat
  {
    if base == 16 && |s| >= 3 && s[0] == '0' && (s[1] == 'x' || s[1] == 'X') && DigitValue(s[2], 16).Some? then
      Accumulate(s[2..], base, 0)
    else Accumulate(s, base, 0)
  }

  /** The (char) cast of a value: its low byte. */
  function ByteChar(v: nat): (ch: char)
    ensures ch as int < 256
  {
    (v % 256) as char
  }

  /** An escape token: a backslash and at least one char. */
  predicate EscapeText(text: string)
  {
    |text| >= 2 && text[0] == '\\'
  }

  /**
   * The char an escape sequence appends to the text buffer: a one-letter
   * escape by the switch of format-parser.c, an escape of at most four chars
   * by strtol over its digits (octal, or hexadecimal after "\x"), nothing for
   * a longer one. This is the intended reading, on the token's own digits.
   */
  function DecodeEscape(text: string): (r: Option<char>)
    requires EscapeText(text)
    ensures r.None? <==> |text| > 4
  {
    if |text| == 2 && !Decimal.IsDigit(text[1]) then Some(Unescape(text[1]))
    else if |text| <= 4 then
      var base := if text[1] == 'x' then 16 else 8;
      Some(ByteChar(Strtol(text[base / 8..], base)))
    else None
  }

  /**
   * The same decoding as format-parser.c writes it: strncpy copies as many
   * chars as the whole token is long, starting after "\" or "\x", so it runs
   * on into the format chars that follow the token (up to the end of the
   * format). When it fills all four bytes of the buffer strtol reads past
   * it; that read is not modelled.
   */
  function DecodeEscapeAsWritten(text: string, following: string): (r: Option<char>)
    requires EscapeText(text)
    ensures r.None? <==> |text| > 4
  {
    if |text| == 2 && !Decimal.IsDigit(text[1]) then Some(Unescape(text[1]))
    else if |text| <= 4 then
      var base := if text[1] == 'x' then 16 else 8;
      var src := text[base / 8..] + following;
      var copied := src[..if |text| < |src| then |text| else |src|];
      Some(ByteChar(Strtol(copied, base)))
    else None
  }

  /** The chars after the token only reach the decoder when they are valid digits: "\x41" then "f" decodes to 0x1f, not 'A'. */
  lemma DecodeReadsPastToken()
    ensures DecodeEscape("\\x41") == Some('A')
    ensures DecodeEscapeAsWritten("\\x41", "f") == Some(31 as char)
    ensures DecodeEscapeAsWritten("\\x41", "") == Some('A')
  {
    assert "\\x41"[2..] == "41";
    assert ("\\x41"[2..] + "f")[..3] == "41f";
    assert ("\\x41"[2..] + "")[..2] == "41";
    assert "41"[1..] == "1" && "1"[1..] == [];
    assert "41f"[1..] == "1f" && "1f"[1..] == "f" && "f"[1..] == [];
    assert Strtol("41", 16) == Accumulate("1", 16, 4) == 65;
    assert Strtol("41f", 16) == Accumulate("1f", 16, 4) == Accumulate("f", 16, 65) == 1055;
  }

  /** An octal escape followed by a digit: "\123" then "4" decodes to 0o1234 mod 256 instead of 'S'. */
  lemma OctalReadsPastToken()
    ensures DecodeEscape("\\123") == Some('S')
    ensures DecodeEscapeAsWritten("\\123", "4") == Some(156 as char)
  {
    assert "\\123"[1..] == "123";
    assert ("\\123"[1..] + "4")[..4] == "1234";
    assert "123"[1..] == "23" && "23"[1..] == "3" && "3"[1..] == [];
    assert "1234"[1..] == "234" && "234"[1..] == "34" && "34"[1..] == "4" && "4"[1..] == [];
    assert Strtol("123", 8) == Accumulate("23", 8, 1) == Accumulate("3", 8, 10) == 83;
    assert Strtol("1234", 8) == Accumulate("234", 8, 1) == Accumulate("34", 8, 10) == Accumulate("4", 8, 83) == 668;
  }

  /** Accumulation stops where the digits do: what follows a non-digit is never read. */
  lemma {:induction false} AccumulateStops(a: string, b: string, base: nat, acc: nat)
    requires b == [] || DigitValue(b[0], base).None?
    ensures Accumulate(a + b, base, acc) == Accumulate(a, base, acc)
    decreases |a|
  {
    if a == [] {
      assert a + b == b;
    } else {
      assert (a + b)[0] == a[0] && (a + b)[1..] == a[1..] + b;
      if DigitValue(a[0], base).Some? {
        AccumulateStops(a[1..], b, base, acc * base + DigitValue(a[0], base).value);
      }
    }
  }

  /**
   * The decoding as written agrees with the intended one whenever the format
   * chars after the token do not begin with a digit of the escape's base (nor,
   * after "\\x", with the 'x' of a "0x" prefix): the discrepancy of
   * format-parser.c:386-393 needs exactly such a char.
   */
  lemma DecodeAgreesWithoutTrailingDigit(text: string, following: string)
    requires EscapeText(text)
    requires var base := if text[1] == 'x' then 16 else 8;
      following == [] || (DigitValue(following[0], base).None? && (base == 8 || following[0] !in "xX"))
    ensures DecodeEscapeAsWritten(text, following) == DecodeEscape(text)
  {
    if !(|text| == 2 && !Decimal.IsDigit(text[1])) && |text| <= 4 {
      var base := if text[1] == 'x' then 16 else 8;
      var d := text[base / 8..];
      var src := d + following;
      var n := if |text| < |src| then |text| else |src|;
      var copied := src[..n];
      var rest := following[..n - |d|];
      assert copied == d + rest;
      assert rest == [] || rest[0] == following[0];
      AccumulateStops(d, rest, base, 0);
      if base == 16 && |copied| >= 3 {
        if |d| == 2 {
          assert copied[2] == following[0];
        } else {
          assert |d| == 1 && copied[1] == following[0];
        }
      }
    }
  }

  /** After "\\x0" an 'x' makes the copied digits a "0x" prefix: "\\x0" then "x5" decodes to 5, not 0. */
  lemma HexPrefixReadsPastToken()
    ensures DecodeEscape("\\x0") == Some(0 as char)
    ensures DecodeEscapeAsWritten("\\x0", "x5") == Some(5 as char)
  {
    assert "\\x0"[2..] == "0" && "0"[1..] == [];
    assert ("\\x0"[2..] + "x5")[..3] == "0x5";
    assert "0"[1..] == [] && Strtol("0", 16) == Accumulate("0", 16, 0) == Accumulate([], 16, 0) == 0;
    assert "0x5"[2..] == "5" && "5"[1..] == [];
    assert Strtol("0x5", 16) == Accumulate("5", 16, 0) == Accumulate([], 16, 5) == 5;
  }

  /** "\\x" and two hex digits append the char of their value. */
  lemma HexEscapeValue(h1: char, h2: char)
    requires DigitValue(h1, 16).Some? && DigitValue(h2, 16).Some?
    ensures DecodeEscape(['\\', 'x', h1, h2]) == Some(ByteChar(16 * DigitValue(h1, 16).value + DigitValue(h2, 16).value))
  {
    var text := ['\\', 'x', h1, h2];
    var d := text[2..];
    assert d == [h1, h2] && d[1..] == [h2] && d[1..][1..] == [];
    assert Strtol(d, 16) == Accumulate(d, 16, 0) == Accumulate([h2], 16, DigitValue(h1, 16).value)
        == 16 * DigitValue(h1, 16).value + DigitValue(h2, 16).value;
  }

  /** "\\" and three octal digits append the char of their value, cut to a byte. */
  lemma OctalEscapeValue(o1: char, o2: char, o3: char)
    requires '0' <= o1 <= '7' && '0' <= o2 <= '7' && '0' <= o3 <= '7'
    ensures DecodeEscape(['\\', o1, o2, o3])
         == Some(ByteChar(64 * (o1 as int - '0' as int) + 8 * (o2 as int - '0' as int) + (o3 as int - '0' as int)))
  {
    var text := ['\\', o1, o2, o3];
    var d := text[1..];
    var v1, v2, v3 := o1 as int - '0' as int, o2 as int - '0' as int, o3 as int - '0' as int;
    assert d == [o1, o2, o3] && d[1..] == [o2, o3] && d[1..][1..] == [o3] && d[1..][1..][1..] == [];
    assert DigitValue(o1, 8) == Some(v1) && DigitValue(o2, 8) == Some(v2) && DigitValue(o3, 8) == Some(v3);
    assert Strtol(d, 8) == Accumulate(d, 8, 0) == Accumulate([o2, o3], 8, v1) == Accumulate([o3], 8, v1 * 8 + v2)
        == (v1 * 8 + v2) * 8 + v3;
  }

  /** Well-formed stack: the none state at the bottom, at most one state above it. */
  predicate PInv(p: PCtx)
  {
    p.stack == [AtNone]
    || (|p.stack| == 2 && p.stack[0] == AtNone && p.stack[1] in {InText, InFlags, InWidth, InDateAttr})
  }

  /** _format_parser_step_none. */
  function AfterNone(p: PCtx, t: L.Token): (StepResult, PCtx)
    requires L.WellFormedToken(t)
  {
    if t.kind == L.TokenString || t.kind == L.TokenEscapeSeq then (Continue, Pushed(p, InText))
    else if t.kind == L.TokenFlag then (Continue, Pushed(p, InFlags))
    else if t.kind == L.TokenNumber then (Next, WithWidth(p, t))
    else if t.kind == L.TokenAttribute then (Next, WithAttribute(p, t))
    else if t.kind == L.TokenDateAttribute then (Next, WithDateAttribute(p, t))
    else (Abort, p)
  }

  /**
   * _format_parser_step_string: text is appended while the buffer stays
   * under FORMAT_TEXT_BUFFER_MAX, otherwise the parse aborts; an escape
   * appends its char when one more fits and is skipped otherwise, and in both
   * cases the step ends NEXT (the ABORT set for a full buffer is overwritten);
   * any other token closes the text node and is taken again.
   */
  function AfterText(p: PCtx, t: L.Token): (StepResult, PCtx)
    requires L.WellFormedToken(t) && p.stack != []
  {
    if t.kind == L.TokenString then
      if |p.buffer| + |t.text| < L.TextBufferMax then (Next, p.(buffer := p.buffer + t.text))
      else (Abort, p)
    else if t.kind == L.TokenEscapeSeq then
      if |p.buffer| + 1 < L.TextBufferMax then
        match DecodeEscape(t.text)
        case Some(ch) => (Next, p.(buffer := p.buffer + [ch]))
        case None => (Next, p)
      else (Next, p)
    else (Continue, Popped(p))
  }

  /** _format_parser_step_flag: flags accumulate; any other token ends them and must begin a width or an attribute. */
  function AfterFlag(p: PCtx, t: L.Token): (StepResult, PCtx)
    requires L.WellFormedToken(t) && p.stack != []
  {
    if t.kind == L.TokenFlag then (Next, p.(flags := p.flags | FlagBit(t.text[0])))
    else
      var q := Popped(p);
      if t.kind == L.TokenNumber then (Next, WithWidth(q, t))
      else if t.kind == L.TokenAttribute then (Next, WithAttribute(q, t))
      else if t.kind == L.TokenDateAttribute then (Next, WithDateAttribute(q, t))
      else (Abort, q)
  }

  /** _format_parser_step_width: a width must be followed by an attribute. */
  function AfterWidth(p: PCtx, t: L.Token): (StepResult, PCtx)
    requires L.WellFormedToken(t) && p.stack != []
  {
    var q := Popped(p);
    if t.kind == L.TokenAttribute then (Next, WithAttribute(q, t))
    else if t.kind == L.TokenDateAttribute then (Next, WithDateAttribute(q, t))
    else (Abort, q)
  }

  /** _format_parser_step_date_attribute: a date format shorter than 128 chars is kept; the date node is emitted either way. */
  function AfterDate(p: PCtx, t: L.Token): (StepResult, PCtx)
    requires p.stack != []
  {
    if t.kind == L.TokenDateFormat then
      var q := if |t.text| < FmtBufferMax then p.(format := t.text) else p;
      (Next, Popped(q))
    else (Continue, Popped(p))
  }

  /**
   * One iteration of the loop of _format_parse. The C loop also aborts on an
   * empty stack and on an unknown state; PInv rules both out.
   */
  function Stepped(p: PCtx, t: L.Token): (StepResult, PCtx)
    requires PInv(p) && L.WellFormedToken(t)
  {
    var top := Top(p);
    if top == AtNone then AfterNone(p, t)
    else if top == InText then AfterText(p, t)
    else if top == InFlags then AfterFlag(p, t)
    else if top == InWidth then AfterWidth(p, t)
    else AfterDate(p, t)
  }

  /** How many more times the token can be taken again before it is consumed. */
  function Rank(p: PCtx, t: L.Token): nat
    requires p.stack != []
  {
    var top := Top(p);
    if top == AtNone then (if t.kind in {L.TokenString, L.TokenEscapeSeq, L.TokenFlag} then 1 else 0)
    else if top == InText then (if t.kind in {L.TokenString, L.TokenEscapeSeq} then 0 else 2)
    else if top == InDateAttr then (if t.kind == L.TokenDateFormat then 0 else 2)
    else 0
  }

  lemma StepShapeNone(p: PCtx, t: L.Token)
    requires PInv(p) && L.WellFormedToken(t) && Top(p) == AtNone
    ensures Stepped(p, t).0 != Abort ==> PInv(Stepped(p, t).1)
    ensures Stepped(p, t).0 == Continue ==> Rank(Stepped(p, t).1, t) < Rank(p, t)
  {
    hide AfterText, AfterFlag, AfterWidth, AfterDate;
  }

  lemma StepShapeText(p: PCtx, t: L.Token)
    requires PInv(p) && L.WellFormedToken(t) && Top(p) == InText
    ensures Stepped(p, t).0 != Abort ==> PInv(Stepped(p, t).1)
    ensures Stepped(p, t).0 == Continue ==> Rank(Stepped(p, t).1, t) < Rank(p, t)
  {
    hide AfterNone, AfterFlag, AfterWidth, AfterDate;
  }

  lemma StepShapeFlags(p: PCtx, t: L.Token)
    requires PInv(p) && L.WellFormedToken(t) && Top(p) == InFlags
    ensures Stepped(p, t).0 != Abort ==> PInv(Stepped(p, t).1)
    ensures Stepped(p, t).0 == Continue ==> Rank(Stepped(p, t).1, t) < Rank(p, t)
  {
    hide AfterNone, AfterText, AfterWidth, AfterDate;
  }

  lemma StepShapeWidth(p: PCtx, t: L.Token)
    requires PInv(p) && L.WellFormedToken(t) && Top(p) == InWidth
    ensures Stepped(p, t).0 != Abort ==> PInv(Stepped(p, t).1)
    ensures Stepped(p, t).0 == Continue ==> Rank(Stepped(p, t).1, t) < Rank(p, t)
  {
    hide AfterNone, AfterText, AfterFlag, AfterDate;
  }

  lemma StepShapeDate(p: PCtx, t: L.Token)
    requires PInv(p) && L.WellFormedToken(t) && Top(p) == InDateAttr
    ensures Stepped(p, t).0 != Abort ==> PInv(Stepped(p, t).1)
    ensures Stepped(p, t).0 == Continue ==> Rank(Stepped(p, t).1, t) < Rank(p, t)
  {
    hide AfterNone, AfterText, AfterFlag, AfterWidth;
  }

  /** A step keeps the stack well formed, and a step that takes the token again lowers its rank. */
  lemma StepShape(p: PCtx, t: L.Token)
    requires PInv(p) && L.WellFormedToken(t)
    ensures Stepped(p, t).0 != Abort ==> PInv(Stepped(p, t).1)
    ensures Stepped(p, t).0 == Continue ==> Rank(Stepped(p, t).1, t) < Rank(p, t)
  {
    match Top(p)
    case AtNone => StepShapeNone(p, t);
    case InText => StepShapeText(p, t);
    case InFlags => StepShapeFlags(p, t);
    case InWidth => StepShapeWidth(p, t);
    case InDateAttr => StepShapeDate(p, t);
  }

  /**
   * The loop of _format_parse from token i on: a NEXT step moves to the next
   * token, a CONTINUE step takes the same token again, an ABORT ends the
   * parse. Once the tokens are used up the top state is popped (which may
   * emit the last node) and the parse succeeds.
   */
  function ParsedFrom(p: PCtx, toks: seq<L.Token>, i: nat): (r: (bool, PCtx))
    requires PInv(p) && i <= |toks| && L.WellFormedTokens(toks)
    decreases |toks| - i, if i < |toks| then Rank(p, toks[i]) else 0
  {
    if i == |toks| then (true, Popped(p))
    else
      StepShape(p, toks[i]);
      var (res, q) := Stepped(p, toks[i]);
      if res == Abort then (false, q)
      else if res == Next then ParsedFrom(q, toks, i + 1)
      else ParsedFrom(q, toks, i)
  }

  /** One token of the loop of _format_parse, in terms of ParsedFrom. */
  lemma ParsedFromStep(p: PCtx, toks: seq<L.Token>, i: nat)
    requires PInv(p) && i < |toks| && L.WellFormedTokens(toks)
    ensures var (res, q) := Stepped(p, toks[i]);
      && (res == Abort ==> ParsedFrom(p, toks, i) == (false, q))
      && (res == Next ==> PInv(q) && ParsedFrom(p, toks, i) == ParsedFrom(q, toks, i + 1))
      && (res == Continue ==> PInv(q) && ParsedFrom(p, toks, i) == ParsedFrom(q, toks, i) && Rank(q, toks[i]) < Rank(p, toks[i]))
  {
    StepShape(p, toks[i]);
  }

  /** Once the tokens are used up, the parse pops the top state and succeeds. */
  lemma ParsedFromEnd(p: PCtx, toks: seq<L.Token>)
    requires PInv(p) && L.WellFormedTokens(toks)
    ensures ParsedFrom(p, toks, |toks|) == (true, Popped(p))
  {
  }

  /** _format_parser_ctx_init, the push of the none state and the first reset. */
  const Start: PCtx := Reset(PCtx([AtNone], 0, 0, 0, [], [], '\0', []))

  /** _format_parse over the lexer's tokens. */
  function Parsed(toks: seq<L.Token>): (bool, PCtx)
    requires L.WellFormedTokens(toks)
  {
    ParsedFrom(Start, toks, 0)
  }

  /** FormatParserResult. */
  datatype ParseResult = ParseResult(success: bool, nodes: seq<Node>)

  /** format_parse: scan, then parse a successful scan; the nodes of a failed parse are dropped. */
  function FormatParsed(fmt: string): (r: ParseResult)
    requires '\0' !in fmt
    ensures !L.Lex(fmt).success ==> r == ParseResult(false, [])
    ensures !r.success ==> r.nodes == []
  {
    var lexed := L.Lex(fmt);
    if !lexed.success then ParseResult(false, [])
    else
      L.LexWellFormed(fmt);
      var (ok, p) := Parsed(lexed.tokens);
      ParseResult(ok, if ok then p.nodes else [])
  }

  /** The cache right after _format_parser_reset_cache. */
  predicate Clean(p: PCtx)
  {
    p.flags == 0 && p.width == -1 && p.precision == -1 && p.buffer == [] && p.format == []
  }

  /** q holds the nodes of p, plus at most one more node, after which the cache is reset. */
  predicate EmitsAtMostOne(p: PCtx, q: PCtx)
  {
    q.nodes == p.nodes || (|q.nodes| == |p.nodes| + 1 && q.nodes[..|p.nodes|] == p.nodes && Clean(q))
  }

  lemma NoneEmitsAtMostOne(p: PCtx, t: L.Token)
    requires PInv(p) && L.WellFormedToken(t) && Top(p) == AtNone
    ensures EmitsAtMostOne(p, AfterNone(p, t).1)
  {
  }

  lemma TextEmitsAtMostOne(p: PCtx, t: L.Token)
    requires PInv(p) && L.WellFormedToken(t) && Top(p) == InText
    ensures EmitsAtMostOne(p, AfterText(p, t).1)
  {
  }

  lemma FlagEmitsAtMostOne(p: PCtx, t: L.Token)
    requires PInv(p) && L.WellFormedToken(t) && Top(p) == InFlags
    ensures EmitsAtMostOne(p, AfterFlag(p, t).1)
  {
  }

  lemma WidthEmitsAtMostOne(p: PCtx, t: L.Token)
    requires PInv(p) && L.WellFormedToken(t) && Top(p) == InWidth
    ensures EmitsAtMostOne(p, AfterWidth(p, t).1)
  {
  }

  lemma DateEmitsAtMostOne(p: PCtx, t: L.Token)
    requires PInv(p) && L.WellFormedToken(t) && Top(p) == InDateAttr
    ensures EmitsAtMostOne(p, AfterDate(p, t).1)
  {
    var r := if t.kind == L.TokenDateFormat && |t.text| < FmtBufferMax then p.(format := t.text) else p;
    assert AfterDate(p, t).1 == Popped(r);
    var q := r.(stack := r.stack[..|r.stack| - 1]);
    assert Popped(r) == Reset(q.(nodes := p.nodes + [AttrNodeOf(q)]));
    assert (p.nodes + [AttrNodeOf(q)])[..|p.nodes|] == p.nodes;
  }

  /** A step emits at most one node, appends it after the earlier ones, and leaves the cache reset after it. */
  lemma StepEmitsOne(p: PCtx, t: L.Token)
    requires PInv(p) && L.WellFormedToken(t)
    ensures var q := Stepped(p, t).1;
      q.nodes == p.nodes || (|q.nodes| == |p.nodes| + 1 && q.nodes[..|p.nodes|] == p.nodes && Clean(q))
  {
    hide AfterNone, AfterText, AfterFlag, AfterWidth, AfterDate;
    match Top(p)
    case AtNone => NoneEmitsAtMostOne(p, t);
    case InText => TextEmitsAtMostOne(p, t);
    case InFlags => FlagEmitsAtMostOne(p, t);
    case InWidth => WidthEmitsAtMostOne(p, t);
    case InDateAttr => DateEmitsAtMostOne(p, t);
  }

  /** The nodes of a parse extend the nodes found before. */
  lemma {:induction false} NodesOnlyGrow(p: PCtx, toks: seq<L.Token>, i: nat)
    requires PInv(p) && i <= |toks| && L.WellFormedTokens(toks)
    ensures var r := ParsedFrom(p, toks, i).1;
      |p.nodes| <= |r.nodes| && r.nodes[..|p.nodes|] == p.nodes
    decreases |toks| - i, if i < |toks| then Rank(p, toks[i]) else 0
  {
    if i < |toks| {
      StepShape(p, toks[i]);
      StepEmitsOne(p, toks[i]);
      var (res, q) := Stepped(p, toks[i]);
      if res == Next {
        NodesOnlyGrow(q, toks, i + 1);
      } else if res == Continue {
        NodesOnlyGrow(q, toks, i);
      }
    }
  }

  /**
   * What the cache holds in each state while the loop runs: the none and
   * text states hold no flags, width or precision (the none state no text
   * either), the flag state no width or precision.
   */
  predicate Shaped(p: PCtx)
  {
    PInv(p)
    && (Top(p) in {AtNone, InText, InFlags} ==> p.width == -1 && p.precision == -1)
    && (Top(p) in {AtNone, InText} ==> p.flags == 0)
    && (Top(p) == AtNone ==> p.buffer == [])
  }

  /** A text node carries no flags, width or precision. */
  predicate PlainTextNode(n: Node)
  {
    n.TextNode? ==> n.flags == 0 && n.width == -1 && n.precision == -1
  }

  predicate PlainTextNodes(ns: seq<Node>)
  {
    forall k :: 0 <= k < |ns| ==> PlainTextNode(ns[k])
  }

  lemma StepShapedNone(p: PCtx, t: L.Token)
    requires Shaped(p) && PlainTextNodes(p.nodes) && L.WellFormedToken(t) && Top(p) == AtNone
    ensures Stepped(p, t).0 != Abort ==> Shaped(Stepped(p, t).1)
    ensures PlainTextNodes(Stepped(p, t).1.nodes)
  {
    hide AfterText, AfterFlag, AfterWidth, AfterDate;
  }

  lemma StepShapedText(p: PCtx, t: L.Token)
    requires Shaped(p) && PlainTextNodes(p.nodes) && L.WellFormedToken(t) && Top(p) == InText
    ensures Stepped(p, t).0 != Abort ==> Shaped(Stepped(p, t).1)
    ensures PlainTextNodes(Stepped(p, t).1.nodes)
  {
    hide AfterNone, AfterFlag, AfterWidth, AfterDate;
  }

  lemma StepShapedFlags(p: PCtx, t: L.Token)
    requires Shaped(p) && PlainTextNodes(p.nodes) && L.WellFormedToken(t) && Top(p) == InFlags
    ensures Stepped(p, t).0 != Abort ==> Shaped(Stepped(p, t).1)
    ensures PlainTextNodes(Stepped(p, t).1.nodes)
  {
    hide AfterNone, AfterText, AfterWidth, AfterDate;
  }

  lemma StepShapedWidth(p: PCtx, t: L.Token)
    requires Shaped(p) && PlainTextNodes(p.nodes) && L.WellFormedToken(t) && Top(p) == InWidth
    ensures Stepped(p, t).0 != Abort ==> Shaped(Stepped(p, t).1)
    ensures PlainTextNodes(Stepped(p, t).1.nodes)
  {
    hide AfterNone, AfterText, AfterFlag, AfterDate;
  }

  lemma StepShapedDate(p: PCtx, t: L.Token)
    requires Shaped(p) && PlainTextNodes(p.nodes) && L.WellFormedToken(t) && Top(p) == InDateAttr
    ensures Stepped(p, t).0 != Abort ==> Shaped(Stepped(p, t).1)
    ensures PlainTextNodes(Stepped(p, t).1.nodes)
  {
    DateStep(p, t);
    var q := if t.kind == L.TokenDateFormat && |t.text| < FmtBufferMax then p.(format := t.text) else p;
    var q' := q.(stack := [AtNone]);
    hide Stepped, Reset, AttrNodeOf;
    PlainTextNodesSnoc(p.nodes, AttrNodeOf(q'));
    ResetShaped(q'.(nodes := p.nodes + [AttrNodeOf(q')]));
  }

  /** The date-attribute state ends its field whatever the token, and keeps the format when it fits. */
  lemma DateStep(p: PCtx, t: L.Token)
    requires PInv(p) && L.WellFormedToken(t) && Top(p) == InDateAttr
    ensures var q := if t.kind == L.TokenDateFormat && |t.text| < FmtBufferMax then p.(format := t.text) else p;
      var q' := q.(stack := [AtNone]);
      Stepped(p, t) == (if t.kind == L.TokenDateFormat then Next else Continue, Reset(q'.(nodes := p.nodes + [AttrNodeOf(q')])))
  {
    hide AfterNone, AfterText, AfterFlag, AfterWidth;
    assert p.stack == [AtNone, InDateAttr] && p.stack[..1] == [AtNone];
  }

  /** A reset context in the none state is shaped. */
  lemma ResetShaped(p: PCtx)
    requires p.stack == [AtNone]
    ensures Shaped(Reset(p))
  {
  }

  /** A node that is not a text node keeps the nodes plain. */
  lemma PlainTextNodesSnoc(ns: seq<Node>, n: Node)
    requires PlainTextNodes(ns) && !n.TextNode?
    ensures PlainTextNodes(ns + [n])
  {
  }

  /** Each step keeps the cache in the shape of its state, and emits only plain text nodes. */
  lemma StepShaped(p: PCtx, t: L.Token)
    requires Shaped(p) && PlainTextNodes(p.nodes) && L.WellFormedToken(t)
    ensures Stepped(p, t).0 != Abort ==> Shaped(Stepped(p, t).1)
    ensures PlainTextNodes(Stepped(p, t).1.nodes)
  {
    match Top(p)
    case AtNone => StepShapedNone(p, t);
    case InText => StepShapedText(p, t);
    case InFlags => StepShapedFlags(p, t);
    case InWidth => StepShapedWidth(p, t);
    case InDateAttr => StepShapedDate(p, t);
  }

  /** Text nodes never pick up the flags, width or precision of a field. */
  lemma {:induction false} TextNodesArePlain(p: PCtx, toks: seq<L.Token>, i: nat)
    requires Shaped(p) && PlainTextNodes(p.nodes) && i <= |toks| && L.WellFormedTokens(toks)
    ensures PlainTextNodes(ParsedFrom(p, toks, i).1.nodes)
    decreases |toks| - i, if i < |toks| then Rank(p, toks[i]) else 0
  {
    if i < |toks| {
      StepShape(p, toks[i]);
      StepShaped(p, toks[i]);
      var (res, q) := Stepped(p, toks[i]);
      if res == Next {
        TextNodesArePlain(q, toks, i + 1);
      } else if res == Continue {
        TextNodesArePlain(q, toks, i);
      }
    } else if Top(p) == InText {
      assert PlainTextNode(TextNodeOf(p.(stack := p.stack[..|p.stack| - 1])));
    }
  }

  /** Every text node format_parse returns is plain. */
  lemma ParsedTextNodesArePlain(fmt: string)
    requires '\0' !in fmt
    ensures PlainTextNodes(FormatParsed(fmt).nodes)
  {
    if L.Lex(fmt).success {
      L.LexWellFormed(fmt);
      TextNodesArePlain(Start, L.Lex(fmt).tokens, 0);
    }
  }

  /** A successful format_parse had a successful scan. */
  lemma ParseNeedsLex(fmt: string)
    requires '\0' !in fmt
    ensures FormatParsed(fmt).success ==> L.Lex(fmt).success
  {
  }

  /** The concatenated texts of a run of tokens. */
  function Texts(ts: seq<L.Token>): string
  {
    if ts == [] then [] else Texts(ts[..|ts| - 1]) + ts[|ts| - 1].text
  }

  predicate AllOfKind(ts: seq<L.Token>, kind: L.TokenType)
  {
    forall k :: 0 <= k < |ts| ==> ts[k].kind == kind
  }

  lemma TextStep(p: PCtx, toks: seq<L.Token>, i: nat)
    requires PInv(p) && Top(p) == InText && L.WellFormedTokens(toks)
    requires i < |toks| && toks[i].kind == L.TokenString && |p.buffer| + |toks[i].text| < L.TextBufferMax
    ensures ParsedFrom(p, toks, i) == ParsedFrom(p.(buffer := p.buffer + toks[i].text), toks, i + 1)
  {
  }

  /** Consecutive text tokens accumulate into the one text buffer while it stays under 4096 chars. */
  lemma {:induction false} TextRun(p: PCtx, toks: seq<L.Token>, i: nat, j: nat)
    requires PInv(p) && Top(p) == InText && L.WellFormedTokens(toks)
    requires i <= j <= |toks| && AllOfKind(toks[i..j], L.TokenString)
    requires |p.buffer| + |Texts(toks[i..j])| < L.TextBufferMax
    ensures ParsedFrom(p, toks, i) == ParsedFrom(p.(buffer := p.buffer + Texts(toks[i..j])), toks, j)
    decreases j - i
  {
    hide ParsedFrom, Stepped;
    if i == j {
      assert toks[i..j] == [];
      assert p.(buffer := p.buffer + []) == p;
      return;
    }
    var run := toks[i..j];
    assert run[1..] == toks[i + 1..j] && run[0] == toks[i];
    TextsFront(run);
    assert AllOfKind(toks[i + 1..j], L.TokenString) && toks[i].kind == L.TokenString;
    var q := p.(buffer := p.buffer + toks[i].text);
    assert PInv(q) && Top(q) == InText;
    TextStep(p, toks, i);
    hide *;
    TextRun(q, toks, i + 1, j);
    assert q.buffer + Texts(toks[i + 1..j]) == p.buffer + Texts(run);
  }

  lemma {:induction false} TextsFront(ts: seq<L.Token>)
    requires ts != []
    ensures Texts(ts) == ts[0].text + Texts(ts[1..])
    decreases |ts|
  {
    if |ts| == 1 {
      assert ts[..0] == [] && ts[1..] == [];
    } else {
      var init := ts[..|ts| - 1];
      assert init[0] == ts[0] && init[1..] == ts[1..][..|ts[1..]| - 1];
      TextsFront(init);
    }
  }

  /** A text token that does not fit the buffer aborts the parse. */
  lemma TextOverflowAborts(p: PCtx, t: L.Token)
    requires PInv(p) && Top(p) == InText && t.kind == L.TokenString
    requires |p.buffer| + |t.text| >= L.TextBufferMax
    ensures Stepped(p, t) == (Abort, p)
  {
  }

  /** An escape that arrives with a full buffer is dropped, and the parse goes on. */
  lemma FullBufferEscapeContinues(p: PCtx, t: L.Token)
    requires PInv(p) && Top(p) == InText && L.WellFormedToken(t) && t.kind == L.TokenEscapeSeq
    requires |p.buffer| + 1 >= L.TextBufferMax
    ensures Stepped(p, t) == (Next, p)
  {
  }

  /** The OR of the flag bits of a run of flag tokens. */
  function FlagBits(ts: seq<L.Token>): bv32
    requires forall k :: 0 <= k < |ts| ==> |ts[k].text| >= 1
  {
    if ts == [] then 0 else FlagBits(ts[..|ts| - 1]) | FlagBit(ts[|ts| - 1].text[0])
  }

  /** Each flag char sets its own bit. */
  lemma FlagBitsDistinct()
    ensures forall c :: c in L.Flags ==> FlagBit(c) != 0
    ensures forall c, d :: c in L.Flags && d in L.Flags && c != d ==> FlagBit(c) & FlagBit(d) == 0
  {
  }

  lemma FlagStep(p: PCtx, toks: seq<L.Token>, i: nat)
    requires PInv(p) && Top(p) == InFlags && L.WellFormedTokens(toks)
    requires i < |toks| && toks[i].kind == L.TokenFlag
    ensures |toks[i].text| == 1
    ensures ParsedFrom(p, toks, i) == ParsedFrom(p.(flags := p.flags | FlagBit(toks[i].text[0])), toks, i + 1)
  {
  }

  /** Flag tokens OR their bits into the flags. */
  lemma {:induction false} FlagRun(p: PCtx, toks: seq<L.Token>, i: nat, j: nat)
    requires PInv(p) && Top(p) == InFlags && L.WellFormedTokens(toks)
    requires i <= j <= |toks| && AllOfKind(toks[i..j], L.TokenFlag)
    ensures forall k :: 0 <= k < |toks[i..j]| ==> |toks[i..j][k].text| >= 1
    ensures ParsedFrom(p, toks, i) == ParsedFrom(p.(flags := p.flags | FlagBits(toks[i..j])), toks, j)
    decreases j - i
  {
    assert forall k :: 0 <= k < |toks[i..j]| ==> toks[i..j][k] == toks[i + k] && L.WellFormedToken(toks[i + k]);
    if i == j {
      assert toks[i..j] == [];
      assert p.(flags := p.flags | 0) == p;
    } else {
      hide ParsedFrom;
      var run := toks[i..j];
      FlagStep(p, toks, i);
      var q := p.(flags := p.flags | FlagBit(toks[i].text[0]));
      FlagRun(q, toks, i + 1, j);
      FlagBitsFront(run);
      assert run[0] == toks[i] && run[1..] == toks[i + 1..j];
    }
  }

  lemma {:induction false} FlagBitsFront(ts: seq<L.Token>)
    requires ts != [] && forall k :: 0 <= k < |ts| ==> |ts[k].text| >= 1
    ensures FlagBits(ts) == FlagBit(ts[0].text[0]) | FlagBits(ts[1..])
    decreases |ts|
  {
    if |ts| == 1 {
      assert ts[..0] == [] && ts[1..] == [];
    } else {
      var init := ts[..|ts| - 1];
      assert init[0] == ts[0] && init[1..] == ts[1..][..|ts[1..]| - 1];
      FlagBitsFront(init);
    }
  }

  /** A number token "W" sets the width atoi("W") and keeps the precision. */
  lemma {:induction false} WidthOfDigits(p: PCtx, w: string)
    requires Decimal.AllDigits(w) && |w| < FmtBufferMax
    ensures var r := WithWidth(p, L.Token(L.TokenNumber, w));
      r.width == IntOfDigitsValue(Decimal.DigitsValue(w)) && r.precision == p.precision
  {
    Decimal.LeadingDigitsOfDigits(w);
  }

  lemma WidthOfLongNumber(p: PCtx, t: L.Token)
    requires |t.text| >= FmtBufferMax
    ensures var r := WithWidth(p, t);
      r.width == p.width && r.precision == p.precision
  {
  }

  lemma WidthOfPrecision(p: PCtx, w: string, q: string)
    requires Decimal.AllDigits(w) && Decimal.AllDigits(q) && |w| + |q| + 1 < FmtBufferMax
    ensures var r := WithWidth(p, L.Token(L.TokenNumber, w + "." + q));
      r.width == IntOfDigitsValue(Decimal.DigitsValue(w)) && r.precision == IntOfDigitsValue(Decimal.DigitsValue(q))
  {
    Decimal.LeadingDigitsOfDigits(w);
    Decimal.LeadingDigitsOfDigits(q);
    var text := w + "." + q;
    assert text[|w|] == '.';
    assert Before(text, '.') == w;
    assert text[|w| + 1..] == q;
  }

  /** Whether a parse from p at token i succeeds, and the nodes it ends with. */
  function Outcome(p: PCtx, toks: seq<L.Token>, i: nat): (bool, seq<Node>)
    requires PInv(p) && i <= |toks| && L.WellFormedTokens(toks)
  {
    var r := ParsedFrom(p, toks, i);
    (r.0, r.1.nodes)
  }

  /** The none state with a reset cache, the nodes found so far and the last attribute char. */
  function AtRest(ns: seq<Node>, attr: char): PCtx
  {
    PCtx([AtNone], 0, -1, -1, [], [], attr, ns)
  }

  /** The text node of plain text, none for empty text. */
  function TextNodes(s: string): seq<Node>
  {
    if s == [] then [] else [TextNode(0, -1, -1, s)]
  }

  /** A field with no flags, width or precision. */
  function BareField(ch: char, format: string): Node
  {
    AttrNode(0, -1, -1, ch, format)
  }

  /** format_parse of a scanned format is the outcome of the token loop. */
  lemma FormatParsedOf(fmt: string, toks: seq<L.Token>)
    requires '\0' !in fmt && L.Lex(fmt) == L.LexResult(true, toks)
    ensures L.WellFormedTokens(toks)
    ensures FormatParsed(fmt) == ParseResult(Outcome(Start, toks, 0).0, if Outcome(Start, toks, 0).0 then Outcome(Start, toks, 0).1 else [])
  {
    L.LexWellFormed(fmt);
  }

  lemma EndAtRest(ns: seq<Node>, attr: char, toks: seq<L.Token>)
    requires L.WellFormedTokens(toks)
    ensures Outcome(AtRest(ns, attr), toks, |toks|) == (true, ns)
  {
  }

  /** A NEXT step moves the parse on to the next token. */
  lemma ParsedNext(p: PCtx, toks: seq<L.Token>, i: nat)
    requires PInv(p) && i < |toks| && L.WellFormedTokens(toks) && Stepped(p, toks[i]).0 == Next
    ensures PInv(Stepped(p, toks[i]).1)
    ensures Outcome(p, toks, i) == Outcome(Stepped(p, toks[i]).1, toks, i + 1)
  {
    StepShape(p, toks[i]);
  }

  /** A CONTINUE step takes the same token again. */
  lemma ParsedContinue(p: PCtx, toks: seq<L.Token>, i: nat)
    requires PInv(p) && i < |toks| && L.WellFormedTokens(toks) && Stepped(p, toks[i]).0 == Continue
    ensures PInv(Stepped(p, toks[i]).1)
    ensures Outcome(p, toks, i) == Outcome(Stepped(p, toks[i]).1, toks, i)
  {
    StepShape(p, toks[i]);
  }

  /** Plain text in the none state pushes the text state, which then takes the text. */
  lemma TextOpens(ns: seq<Node>, attr: char, s: string)
    requires |s| < L.TextBufferMax
    ensures var p0 := AtRest(ns, attr); var p1 := Pushed(p0, InText);
      PInv(p0) && PInv(p1) &&
      Stepped(p0, L.Token(L.TokenString, s)) == (Continue, p1) &&
      Stepped(p1, L.Token(L.TokenString, s)) == (Next, p1.(buffer := s))
  {
    var p1 := Pushed(AtRest(ns, attr), InText);
    assert p1.buffer + s == s;
  }

  /** More plain text in the text state is appended to the buffer. */
  lemma TextAppends(ns: seq<Node>, attr: char, pre: string, s: string)
    requires |pre| + |s| < L.TextBufferMax
    ensures var p := Pushed(AtRest(ns, attr), InText).(buffer := pre);
      PInv(p) && Stepped(p, L.Token(L.TokenString, s)) == (Next, p.(buffer := pre + s))
  {
  }

  /** A token other than text closes the text node and is taken again in the none state. */
  lemma TextCloses(ns: seq<Node>, attr: char, b: string, t: L.Token)
    requires '\0' !in b && L.WellFormedToken(t) && t.kind !in {L.TokenString, L.TokenEscapeSeq}
    ensures var p := Pushed(AtRest(ns, attr), InText).(buffer := b);
      Popped(p) == AtRest(ns + [TextNode(0, -1, -1, b)], attr) &&
      Stepped(p, t) == (Continue, Popped(p))
  {
    CStringOfPlain(b);
  }

  /** The text state popped at the end of the tokens leaves its text node. */
  lemma TextPopped(ns: seq<Node>, attr: char, b: string)
    requires '\0' !in b
    ensures Popped(Pushed(AtRest(ns, attr), InText).(buffer := b)) == AtRest(ns + [TextNode(0, -1, -1, b)], attr)
  {
    CStringOfPlain(b);
  }

  /** Plain text followed by a non-text token or the end becomes one text node. */
  lemma TextThen(s: string, ns: seq<Node>, attr: char, toks: seq<L.Token>, i: nat)
    requires L.Plain(s) && |s| < L.TextBufferMax && L.WellFormedTokens(toks)
    requires i + |L.TextTokens(s)| <= |toks| && toks[i..i + |L.TextTokens(s)|] == L.TextTokens(s)
    requires i + |L.TextTokens(s)| < |toks| ==> toks[i + |L.TextTokens(s)|].kind !in {L.TokenString, L.TokenEscapeSeq}
    ensures Outcome(AtRest(ns, attr), toks, i) == Outcome(AtRest(ns + TextNodes(s), attr), toks, i + |L.TextTokens(s)|)
  {
    if s != [] {
      assert toks[i] == toks[i..i + 1][0] == L.Token(L.TokenString, s);
      TextOpens(ns, attr, s);
      TextPopped(ns, attr, s);
      var p0 := AtRest(ns, attr);
      var p1 := Pushed(p0, InText);
      var p2 := p1.(buffer := s);
      hide Stepped, Popped, AtRest, Pushed;
      ParsedContinue(p0, toks, i);
      ParsedNext(p1, toks, i);
      if i + 1 < |toks| {
        TextCloses(ns, attr, s, toks[i + 1]);
        ParsedContinue(p2, toks, i + 1);
      }
    } else {
      assert ns + [] == ns;
    }
  }

  /** An attribute char becomes a bare field node. */
  lemma AttributeThen(ch: char, ns: seq<Node>, attr: char, toks: seq<L.Token>, i: nat)
    requires L.WellFormedTokens(toks) && i < |toks| && toks[i] == L.Token(L.TokenAttribute, [ch])
    ensures Outcome(AtRest(ns, attr), toks, i) == Outcome(AtRest(ns + [BareField(ch, [])], ch), toks, i + 1)
  {
    assert Stepped(AtRest(ns, attr), toks[i]) == (Next, AtRest(ns + [BareField(ch, [])], ch));
    ParsedNext(AtRest(ns, attr), toks, i);
  }

  /** A date attribute char with nothing after it becomes a field node with an empty date format. */
  lemma DateAttributeAtEnd(ch: char, ns: seq<Node>, attr: char, toks: seq<L.Token>)
    requires L.WellFormedTokens(toks) && |toks| > 0 && toks[|toks| - 1] == L.Token(L.TokenDateAttribute, [ch])
    ensures Outcome(AtRest(ns, attr), toks, |toks| - 1) == (true, ns + [BareField(ch, [])])
  {
    var p1 := Pushed(AtRest(ns, attr).(attr := ch), InDateAttr);
    assert Stepped(AtRest(ns, attr), toks[|toks| - 1]) == (Next, p1);
    ParsedNext(AtRest(ns, attr), toks, |toks| - 1);
    assert Popped(p1) == AtRest(ns + [BareField(ch, [])], ch);
  }

  /** A date attribute char with its date format becomes one field node holding the format. */
  lemma DateFormatThen(ch: char, d: string, ns: seq<Node>, attr: char, toks: seq<L.Token>, i: nat)
    requires L.WellFormedTokens(toks) && i + 1 < |toks| && '\0' !in d && |d| < FmtBufferMax
    requires toks[i] == L.Token(L.TokenDateAttribute, [ch]) && toks[i + 1] == L.Token(L.TokenDateFormat, d)
    ensures Outcome(AtRest(ns, attr), toks, i) == Outcome(AtRest(ns + [BareField(ch, d)], ch), toks, i + 2)
  {
    CStringOfPlain(d);
    var p0 := AtRest(ns, attr);
    var p1 := Pushed(p0.(attr := ch), InDateAttr);
    assert Stepped(p0, toks[i]) == (Next, p1);
    ParsedNext(p0, toks, i);
    assert Stepped(p1, toks[i + 1]) == (Next, AtRest(ns + [BareField(ch, d)], ch));
    ParsedNext(p1, toks, i + 1);
  }

  /** A flag then an attribute char becomes a field node with that flag's bit. */
  lemma FlagThen(flag: char, ch: char, ns: seq<Node>, attr: char, toks: seq<L.Token>, i: nat)
    requires L.WellFormedTokens(toks) && i + 1 < |toks|
    requires toks[i] == L.Token(L.TokenFlag, [flag]) && toks[i + 1] == L.Token(L.TokenAttribute, [ch])
    ensures Outcome(AtRest(ns, attr), toks, i) == Outcome(AtRest(ns + [AttrNode(FlagBit(flag), -1, -1, ch, [])], ch), toks, i + 2)
  {
    var p0 := AtRest(ns, attr);
    var p1 := Pushed(p0, InFlags);
    var p2 := p1.(flags := FlagBit(flag));
    FlagSteps(flag, ch, ns, attr);
    hide Stepped, AtRest, Pushed;
    ParsedContinue(p0, toks, i);
    ParsedNext(p1, toks, i);
    ParsedNext(p2, toks, i + 1);
  }

  /** The three steps of a flag then an attribute char. */
  lemma FlagSteps(flag: char, ch: char, ns: seq<Node>, attr: char)
    ensures var p0 := AtRest(ns, attr); var p1 := Pushed(p0, InFlags); var p2 := p1.(flags := FlagBit(flag));
      PInv(p0) && PInv(p1) && PInv(p2) &&
      Stepped(p0, L.Token(L.TokenFlag, [flag])) == (Continue, p1) &&
      Stepped(p1, L.Token(L.TokenFlag, [flag])) == (Next, p2) &&
      Stepped(p2, L.Token(L.TokenAttribute, [ch])) == (Next, AtRest(ns + [AttrNode(FlagBit(flag), -1, -1, ch, [])], ch))
  {
  }

  /** A number then an attribute char becomes a field node with the number's width and precision. */
  lemma NumberThen(n: string, ch: char, ns: seq<Node>, attr: char, toks: seq<L.Token>, i: nat)
    requires L.WellFormedTokens(toks) && i + 1 < |toks|
    requires toks[i] == L.Token(L.TokenNumber, n) && toks[i + 1] == L.Token(L.TokenAttribute, [ch])
    ensures var p1 := WithWidth(AtRest(ns, attr), toks[i]);
      Outcome(AtRest(ns, attr), toks, i) == Outcome(AtRest(ns + [AttrNode(0, p1.width, p1.precision, ch, [])], ch), toks, i + 2)
  {
    var p0 := AtRest(ns, attr);
    var p1 := WithWidth(p0, toks[i]);
    assert Stepped(p0, toks[i]) == (Next, p1);
    ParsedNext(p0, toks, i);
    assert Stepped(p1, toks[i + 1]) == (Next, AtRest(ns + [AttrNode(0, p1.width, p1.precision, ch, [])], ch));
    ParsedNext(p1, toks, i + 1);
  }

  /** A width W then an attribute char becomes a field node of width W. */
  lemma WidthThen(w: string, ch: char, ns: seq<Node>, attr: char, toks: seq<L.Token>, i: nat)
    requires L.WellFormedTokens(toks) && i + 1 < |toks| && Decimal.AllDigits(w) && |w| < FmtBufferMax
    requires toks[i] == L.Token(L.TokenNumber, w) && toks[i + 1] == L.Token(L.TokenAttribute, [ch])
    ensures Outcome(AtRest(ns, attr), toks, i) == Outcome(AtRest(ns + [AttrNode(0, IntOfDigitsValue(Decimal.DigitsValue(w)), -1, ch, [])], ch), toks, i + 2)
  {
    WidthOfDigits(AtRest(ns, attr), w);
    NumberThen(w, ch, ns, attr, toks, i);
  }

  /** A number with nothing after it is dropped, and the parse still succeeds. */
  lemma NumberAtEnd(n: string, ns: seq<Node>, attr: char, toks: seq<L.Token>)
    requires L.WellFormedTokens(toks) && |toks| > 0 && toks[|toks| - 1] == L.Token(L.TokenNumber, n)
    ensures Outcome(AtRest(ns, attr), toks, |toks| - 1) == (true, ns)
  {
    var p0 := AtRest(ns, attr);
    assert Stepped(p0, toks[|toks| - 1]).0 == Next;
    ParsedNext(p0, toks, |toks| - 1);
  }

  lemma StartAtRest()
    ensures Start == AtRest([], '\0')
  {
  }

  /** Plain text parses to one text node (none for the empty string). */
  lemma PlainTextParses(s: string)
    requires L.Plain(s) && |s| < L.TextBufferMax
    ensures FormatParsed(s) == ParseResult(true, TextNodes(s))
  {
    L.PlainTextLexes(s);
    var toks := L.TextTokens(s);
    FormatParsedOf(s, toks);
    assert toks[0..|toks|] == toks;
    assert [] + TextNodes(s) == TextNodes(s);
    hide *;
    StartAtRest();
    TextThen(s, [], '\0', toks, 0);
    EndAtRest(TextNodes(s), '\0', toks);
  }

  /** "%%" adds a '%' to the text node of the text before it. */
  lemma DoublePercentParses(s: string)
    requires L.Plain(s) && |s| + 2 < L.TextBufferMax
    ensures '\0' !in s + "%%"
    ensures FormatParsed(s + "%%") == ParseResult(true, [TextNode(0, -1, -1, s + "%")])
  {
    L.DoublePercentLexes(s);
    var toks := L.TextTokens(s) + [L.Token(L.TokenString, "%")];
    FormatParsedOf(s + "%%", toks);
    StartAtRest();
    assert L.WellFormedTokens(toks);
    var p0 := AtRest([], '\0');
    var p1 := Pushed(p0, InText);
    TextPopped([], '\0', s + "%");
    if s == [] {
      assert toks == [L.Token(L.TokenString, "%")];
      TextOpens([], '\0', "%");
      hide Stepped, Popped, AtRest, Pushed;
      ParsedContinue(p0, toks, 0);
      ParsedNext(p1, toks, 0);
    } else {
      assert toks == [L.Token(L.TokenString, s), L.Token(L.TokenString, "%")];
      TextOpens([], '\0', s);
      TextAppends([], '\0', s, "%");
      hide Stepped, Popped, AtRest, Pushed;
      ParsedContinue(p0, toks, 0);
      ParsedNext(p1, toks, 0);
      ParsedNext(p1.(buffer := s), toks, 1);
    }
  }

  /** A '%' with nothing after it makes format_parse fail with no nodes. */
  lemma TrailingPercentParseFails(s: string)
    requires L.Plain(s)
    ensures '\0' !in s + "%" && FormatParsed(s + "%") == ParseResult(false, [])
  {
    L.TrailingPercentFails(s);
  }

  /** Plain text lexed ahead of further tokens: the parse goes on from the text nodes after the text tokens. */
  lemma TextThenRest(s: string, rest: seq<L.Token>, fmt: string)
    requires L.Plain(s) && |s| < L.TextBufferMax && '\0' !in fmt && L.Lex(fmt) == L.LexResult(true, L.TextTokens(s) + rest)
    requires rest != [] ==> rest[0].kind !in {L.TokenString, L.TokenEscapeSeq}
    ensures L.WellFormedTokens(L.TextTokens(s) + rest)
    ensures var o := Outcome(AtRest(TextNodes(s), '\0'), L.TextTokens(s) + rest, |L.TextTokens(s)|);
      FormatParsed(fmt) == ParseResult(o.0, if o.0 then o.1 else [])
  {
    var t := L.TextTokens(s);
    var toks := t + rest;
    FormatParsedOf(fmt, toks);
    assert toks[0..|t|] == t;
    assert rest != [] ==> toks[|t|] == rest[0];
    assert [] + TextNodes(s) == TextNodes(s);
    hide *;
    StartAtRest();
    TextThen(s, [], '\0', toks, 0);
  }

  /** A field char after plain text gives the text node and a bare field node. */
  lemma FieldParses(s: string, ch: char)
    requires L.Plain(s) && (ch in L.Attributes || ch in L.DateAttributes) && |s| + 2 < L.TextBufferMax
    ensures '\0' !in s + ['%', ch]
    ensures FormatParsed(s + ['%', ch]) == ParseResult(true, TextNodes(s) + [BareField(ch, [])])
  {
    L.FieldCharLexes(s, ch);
    var t := L.TextTokens(s);
    var toks := t + [L.Token(L.FieldCharKind(ch), [ch])];
    var isDate := ch in L.DateAttributes;
    assert isDate ==> L.FieldCharKind(ch) == L.TokenDateAttribute;
    assert !isDate ==> L.FieldCharKind(ch) == L.TokenAttribute;
    TextThenRest(s, [L.Token(L.FieldCharKind(ch), [ch])], s + ['%', ch]);
    assert toks[|t|] == L.Token(L.FieldCharKind(ch), [ch]) && |toks| == |t| + 1;
    hide *;
    if isDate {
      DateAttributeAtEnd(ch, TextNodes(s), '\0', toks);
    } else {
      AttributeThen(ch, TextNodes(s), '\0', toks, |t|);
      EndAtRest(TextNodes(s) + [BareField(ch, [])], ch, toks);
    }
  }

  /** "%{name}" parses exactly like the field char the name maps to. */
  lemma FieldNameParses(s: string, i: nat)
    requires L.Plain(s) && i < FormatFields.FieldCount
    requires |s| + |FormatFields.FieldNames[i]| + 3 < L.TextBufferMax
    ensures '\0' !in s + "%{" + FormatFields.FieldNames[i] + "}"
    ensures FormatParsed(s + "%{" + FormatFields.FieldNames[i] + "}")
         == ParseResult(true, TextNodes(s) + [BareField(FormatFields.FieldChars[i], [])])
  {
    L.FieldNameLexes(s, i);
    FieldParses(s, FormatFields.FieldChars[i]);
  }

  /** A flag before an attribute char sets that flag's bit on the field node. */
  lemma FlagFieldParses(s: string, flag: char, ch: char)
    requires L.Plain(s) && flag in L.Flags && ch in L.Attributes && |s| + 3 < L.TextBufferMax
    ensures '\0' !in s + ['%', flag, ch]
    ensures FlagBit(flag) != 0
    ensures FormatParsed(s + ['%', flag, ch]) == ParseResult(true, TextNodes(s) + [AttrNode(FlagBit(flag), -1, -1, ch, [])])
  {
    FlagBitsDistinct();
    L.FlagFieldLexes(s, flag, ch);
    var t := L.TextTokens(s);
    var rest := [L.Token(L.TokenFlag, [flag]), L.Token(L.TokenAttribute, [ch])];
    var toks := t + rest;
    TextThenRest(s, rest, s + ['%', flag, ch]);
    assert |toks| == |t| + 2 && toks[|t|] == rest[0] && toks[|t| + 1] == rest[1];
    hide *;
    FlagThen(flag, ch, TextNodes(s), '\0', toks, |t|);
    EndAtRest(TextNodes(s) + [AttrNode(FlagBit(flag), -1, -1, ch, [])], ch, toks);
  }

  /** The width and attribute tokens after the text, parsed from rest. */
  lemma {:induction false} WidthTail(ns: seq<Node>, t: seq<L.Token>, w: string, ch: char)
    requires L.WellFormedTokens(t + [L.Token(L.TokenNumber, w), L.Token(L.TokenAttribute, [ch])])
    requires Decimal.AllDigits(w) && |w| < FmtBufferMax
    ensures Outcome(AtRest(ns, '\0'), t + [L.Token(L.TokenNumber, w), L.Token(L.TokenAttribute, [ch])], |t|)
         == (true, ns + [AttrNode(0, IntOfDigitsValue(Decimal.DigitsValue(w)), -1, ch, [])])
  {
    hide *;
    var toks := t + [L.Token(L.TokenNumber, w), L.Token(L.TokenAttribute, [ch])];
    assert |toks| == |t| + 2 && toks[|t|] == L.Token(L.TokenNumber, w) && toks[|t| + 1] == L.Token(L.TokenAttribute, [ch]);
    WidthThen(w, ch, ns, '\0', toks, |t|);
    EndAtRest(ns + [AttrNode(0, IntOfDigitsValue(Decimal.DigitsValue(w)), -1, ch, [])], ch, toks);
  }

  /** The width-and-precision and attribute tokens after the text, parsed from rest. */
  lemma {:induction false} PrecisionTail(ns: seq<Node>, t: seq<L.Token>, w: string, q: string, ch: char)
    requires L.WellFormedTokens(t + [L.Token(L.TokenNumber, w + "." + q), L.Token(L.TokenAttribute, [ch])])
    requires Decimal.AllDigits(w) && Decimal.AllDigits(q) && |w| + |q| + 1 < FmtBufferMax
    ensures Outcome(AtRest(ns, '\0'), t + [L.Token(L.TokenNumber, w + "." + q), L.Token(L.TokenAttribute, [ch])], |t|)
         == (true, ns + [AttrNode(0, IntOfDigitsValue(Decimal.DigitsValue(w)), IntOfDigitsValue(Decimal.DigitsValue(q)), ch, [])])
  {
    hide *;
    var toks := t + [L.Token(L.TokenNumber, w + "." + q), L.Token(L.TokenAttribute, [ch])];
    assert |toks| == |t| + 2 && toks[|t|] == L.Token(L.TokenNumber, w + "." + q) && toks[|t| + 1] == L.Token(L.TokenAttribute, [ch]);
    WidthOfPrecision(AtRest(ns, '\0'), w, q);
    NumberThen(w + "." + q, ch, ns, '\0', toks, |t|);
    EndAtRest(ns + [AttrNode(0, IntOfDigitsValue(Decimal.DigitsValue(w)), IntOfDigitsValue(Decimal.DigitsValue(q)), ch, [])], ch, toks);
  }

  /** "%Wc" gives the field node width W. */
  lemma WidthFieldParses(s: string, w: string, ch: char)
    requires L.Plain(s) && w != [] && Decimal.AllDigits(w) && w[0] != '0' && ch in L.Attributes
    requires |s| + |w| + 2 < L.TextBufferMax && |w| < FmtBufferMax
    ensures '\0' !in s + "%" + w + [ch]
    ensures FormatParsed(s + "%" + w + [ch])
         == ParseResult(true, TextNodes(s) + [AttrNode(0, IntOfDigitsValue(Decimal.DigitsValue(w)), -1, ch, [])])
  {
    hide *;
    L.WidthFieldLexes(s, w, ch);
    var rest := [L.Token(L.TokenNumber, w), L.Token(L.TokenAttribute, [ch])];
    TextThenRest(s, rest, s + "%" + w + [ch]);
    WidthTail(TextNodes(s), L.TextTokens(s), w, ch);
  }

  /** "%W.Pc" gives the field node width W and precision P. */
  lemma PrecisionFieldParses(s: string, w: string, q: string, ch: char)
    requires L.Plain(s) && w != [] && Decimal.AllDigits(w) && w[0] != '0' && Decimal.AllDigits(q) && ch in L.Attributes
    requires |s| + |w| + |q| + 3 < L.TextBufferMax && |w| + |q| + 1 < FmtBufferMax
    ensures '\0' !in s + "%" + w + "." + q + [ch]
    ensures FormatParsed(s + "%" + w + "." + q + [ch])
         == ParseResult(true, TextNodes(s) + [AttrNode(0, IntOfDigitsValue(Decimal.DigitsValue(w)), IntOfDigitsValue(Decimal.DigitsValue(q)), ch, [])])
  {
    hide *;
    L.PrecisionFieldLexes(s, w, q, ch);
    var rest := [L.Token(L.TokenNumber, w + "." + q), L.Token(L.TokenAttribute, [ch])];
    TextThenRest(s, rest, s + "%" + w + "." + q + [ch]);
    PrecisionTail(TextNodes(s), L.TextTokens(s), w, q, ch);
  }

  /** A width with no attribute after it is dropped: "%W" parses to the text alone. */
  lemma DanglingWidthParses(s: string, w: string)
    requires L.Plain(s) && w != [] && Decimal.AllDigits(w) && w[0] != '0' && |s| + |w| + 1 < L.TextBufferMax
    ensures '\0' !in s + "%" + w
    ensures FormatParsed(s + "%" + w) == ParseResult(true, TextNodes(s))
  {
    L.DanglingWidthLexes(s, w);
    var t := L.TextTokens(s);
    var rest := [L.Token(L.TokenNumber, w)];
    var toks := t + rest;
    TextThenRest(s, rest, s + "%" + w);
    assert |toks| == |t| + 1 && toks[|t|] == rest[0];
    hide *;
    NumberAtEnd(w, TextNodes(s), '\0', toks);
  }

  /** A date attribute with a date format gives one field node holding the format. */
  lemma DateFormatParses(s: string, ch: char, d: string)
    requires L.Plain(s) && ch in L.DateAttributes && d != [] && L.DateChars(d) && |s| + |d| + 2 < L.TextBufferMax
    requires |d| < FmtBufferMax
    ensures '\0' !in s + ['%', ch] + d
    ensures FormatParsed(s + ['%', ch] + d) == ParseResult(true, TextNodes(s) + [BareField(ch, d)])
  {
    L.DateFormatLexes(s, ch, d);
    var t := L.TextTokens(s);
    var rest := [L.Token(L.TokenDateAttribute, [ch]), L.Token(L.TokenDateFormat, d)];
    var toks := t + rest;
    assert '\0' !in d by {
      assert forall k :: 0 <= k < |d| ==> d[k] == (s + ['%', ch] + d)[|s| + 2 + k];
    }
    TextThenRest(s, rest, s + ['%', ch] + d);
    assert |toks| == |t| + 2 && toks[|t|] == rest[0] && toks[|t| + 1] == rest[1];
    hide *;
    DateFormatThen(ch, d, TextNodes(s), '\0', toks, |t|);
    EndAtRest(TextNodes(s) + [BareField(ch, d)], ch, toks);
  }

  /** An escape in the text state appends the char it decodes to. */
  lemma EscapeStep(p: PCtx, t: L.Token, ch: char)
    requires PInv(p) && Top(p) == InText && L.WellFormedToken(t) && t.kind == L.TokenEscapeSeq
    requires |p.buffer| + 1 < L.TextBufferMax && DecodeEscape(t.text) == Some(ch)
    ensures Stepped(p, t) == (Next, p.(buffer := p.buffer + [ch]))
  {
  }

  lemma BeginText(ns: seq<Node>, attr: char, t: L.Token)
    requires L.WellFormedToken(t) && t.kind in {L.TokenString, L.TokenEscapeSeq}
    ensures Stepped(AtRest(ns, attr), t) == (Continue, Pushed(AtRest(ns, attr), InText))
    ensures Top(Pushed(AtRest(ns, attr), InText)) == InText && PInv(Pushed(AtRest(ns, attr), InText))
    ensures Pushed(AtRest(ns, attr), InText).buffer == [] && Pushed(AtRest(ns, attr), InText).flags == 0
    ensures Pushed(AtRest(ns, attr), InText).width == -1 && Pushed(AtRest(ns, attr), InText).precision == -1
  {
  }

  /** Once the tokens are used up, the top state is popped and the parse succeeds. */
  lemma EndOutcome(p: PCtx, toks: seq<L.Token>)
    requires PInv(p) && L.WellFormedTokens(toks)
    ensures Outcome(p, toks, |toks|) == (true, Popped(p).nodes)
  {
  }

  lemma PoppedText(p: PCtx)
    requires p.stack != [] && Top(p) == InText
    ensures Popped(p).nodes == p.nodes + [TextNode(p.flags, p.width, p.precision, CString(p.buffer))]
  {
  }

  /** The tokens of "\x41f": the escape decodes to 'A', then the text "f" joins it in one text node. */
  lemma HexEscapeTokensParse()
    ensures L.WellFormedTokens([L.Token(L.TokenEscapeSeq, "\\x41"), L.Token(L.TokenString, "f")])
    ensures Outcome(AtRest([], '\0'), [L.Token(L.TokenEscapeSeq, "\\x41"), L.Token(L.TokenString, "f")], 0)
         == (true, [TextNode(0, -1, -1, "Af")])
  {
    hide FormatParsed, Parsed, ParsedFrom, Stepped, AfterNone, AfterText, AfterFlag, AfterWidth, AfterDate, DecodeEscape, DecodeEscapeAsWritten, CString;
    var toks := [L.Token(L.TokenEscapeSeq, "\\x41"), L.Token(L.TokenString, "f")];
    DecodeReadsPastToken();
    assert L.WellFormedToken(toks[0]) && L.WellFormedToken(toks[1]);
    assert toks[0].kind == L.TokenEscapeSeq && toks[1].kind == L.TokenString && toks[0].text == "\\x41";
    assert "A" + "f" == "Af" && [] + ['A'] == "A";
    var p0 := AtRest([], '\0');
    BeginText([], '\0', toks[0]);
    var p1 := Pushed(p0, InText);
    ParsedContinue(p0, toks, 0);
    EscapeStep(p1, toks[0], 'A');
    ParsedNext(p1, toks, 0);
    var p2 := p1.(buffer := "A");
    TextStep(p2, toks, 1);
    var p3 := p2.(buffer := "Af");
    EndOutcome(p3, toks);
    PoppedText(p3);
    CStringOfPlain("Af");
    assert p3.nodes + [TextNode(p3.flags, p3.width, p3.precision, "Af")] == [TextNode(0, -1, -1, "Af")];
  }

  /** "\x41f" parses to the text "Af": the escape is decoded from its own two digits. */
  lemma HexEscapeParses()
    ensures FormatParsed("\\x41f") == ParseResult(true, [TextNode(0, -1, -1, "Af")])
  {
    hide *;
    L.HexEscapeLexes();
    HexEscapeTokensParse();
    FormatParsedOf("\\x41f", [L.Token(L.TokenEscapeSeq, "\\x41"), L.Token(L.TokenString, "f")]);
    StartAtRest();
  }

  /** FormatParserCtx with the step functions of format-parser.c as methods. */
  class Parser {
    var stack: seq<ParserState>
    var flags: bv32
    var width: int
    var precision: int
    var buffer: string
    var format: string
    var attr: char
    var nodes: seq<Node>

    function Snapshot(): PCtx
      reads this
    {
      PCtx(stack, flags, width, precision, buffer, format, attr, nodes)
    }

    /** _format_parser_ctx_init: everything zeroed, no state, no nodes. */
    constructor ()
      ensures Snapshot() == PCtx([], 0, 0, 0, [], [], '\0', [])
    {
      stack := [];
      flags := 0;
      width := 0;
      precision := 0;
      buffer := [];
      format := [];
      attr := '\0';
      nodes := [];
    }

    method ResetCache()
      modifies this
      ensures Snapshot() == Reset(old(Snapshot()))
    {
      width := -1;
      precision := -1;
      flags := 0;
      buffer := [];
      format := [];
    }

    /** _format_parser_found_attribute and _format_parser_found_date_attribute. */
    method FoundAttribute()
      modifies this
      ensures Snapshot() == Reset(old(Snapshot()).(nodes := old(nodes) + [AttrNodeOf(old(Snapshot()))]))
    {
      nodes := nodes + [AttrNode(flags, width, precision, attr, CString(format))];
      ResetCache();
    }

    method FoundString()
      modifies this
      ensures Snapshot() == Reset(old(Snapshot()).(nodes := old(nodes) + [TextNodeOf(old(Snapshot()))]))
    {
      nodes := nodes + [TextNode(flags, width, precision, CString(buffer))];
      ResetCache();
    }

    method Pop()
      requires stack != []
      modifies this
      ensures Snapshot() == Popped(old(Snapshot()))
    {
      var state := stack[|stack| - 1];
      stack := stack[..|stack| - 1];
      if state == InText {
        FoundString();
      } else if state == InDateAttr {
        FoundAttribute();
      }
    }

    method BeginString(t: L.Token) returns (r: StepResult)
      modifies this
      ensures (r, Snapshot()) == (Continue, Pushed(old(Snapshot()), InText))
    {
      stack := stack + [InText];
      r := Continue;
    }

    method BeginWidth(t: L.Token) returns (r: StepResult)
      modifies this
      ensures (r, Snapshot()) == (Next, WithWidth(old(Snapshot()), t))
    {
      stack := stack + [InWidth];
      if |t.text| < FmtBufferMax {
        var w := Before(t.text, '.');
        if |w| < |t.text| {
          precision := Atoi(t.text[|w| + 1..]);
          width := Atoi(w);
        } else {
          width := Atoi(t.text);
        }
      }
      r := Next;
    }

    method BeginFlags(t: L.Token) returns (r: StepResult)
      modifies this
      ensures (r, Snapshot()) == (Continue, Pushed(old(Snapshot()), InFlags))
    {
      stack := stack + [InFlags];
      r := Continue;
    }

    method BeginAttribute(t: L.Token) returns (r: StepResult)
      requires |t.text| >= 1
      modifies this
      ensures (r, Snapshot()) == (Next, WithAttribute(old(Snapshot()), t))
    {
      attr := t.text[0];
      FoundAttribute();
      r := Next;
    }

    method BeginDateAttribute(t: L.Token) returns (r: StepResult)
      requires |t.text| >= 1
      modifies this
      ensures (r, Snapshot()) == (Next, WithDateAttribute(old(Snapshot()), t))
    {
      format := [];
      attr := t.text[0];
      stack := stack + [InDateAttr];
      r := Next;
    }

    method StepNone(t: L.Token) returns (r: StepResult)
      requires L.WellFormedToken(t)
      modifies this
      ensures (r, Snapshot()) == AfterNone(old(Snapshot()), t)
    {
      if t.kind == L.TokenString || t.kind == L.TokenEscapeSeq {
        r := BeginString(t);
      } else if t.kind == L.TokenFlag {
        r := BeginFlags(t);
      } else if t.kind == L.TokenNumber {
        r := BeginWidth(t);
      } else if t.kind == L.TokenAttribute {
        r := BeginAttribute(t);
      } else if t.kind == L.TokenDateAttribute {
        r := BeginDateAttribute(t);
      } else {
        r := Abort;
      }
    }

    method StepString(t: L.Token) returns (r: StepResult)
      requires L.WellFormedToken(t) && stack != []
      modifies this
      ensures (r, Snapshot()) == AfterText(old(Snapshot()), t)
    {
      r := Continue;
      if t.kind == L.TokenString {
        if |buffer| + |t.text| < L.TextBufferMax {
          buffer := buffer + t.text;
          r := Next;
        } else {
          r := Abort;
        }
      } else if t.kind == L.TokenEscapeSeq {
        if |buffer| + 1 < L.TextBufferMax {
          var ch := DecodeEscape(t.text);
          if ch.Some? {
            buffer := buffer + [ch.value];
          }
        } else {
          r := Abort;
        }
        r := Next;
      } else {
        Pop();
      }
    }

    method StepFlag(t: L.Token) returns (r: StepResult)
      requires L.WellFormedToken(t) && stack != []
      modifies this
      ensures (r, Snapshot()) == AfterFlag(old(Snapshot()), t)
    {
      if t.kind == L.TokenFlag {
        flags := flags | FlagBit(t.text[0]);
        r := Next;
      } else {
        Pop();
        if t.kind == L.TokenNumber {
          r := BeginWidth(t);
        } else if t.kind == L.TokenAttribute {
          r := BeginAttribute(t);
        } else if t.kind == L.TokenDateAttribute {
          r := BeginDateAttribute(t);
        } else {
          r := Abort;
        }
      }
    }

    method StepWidth(t: L.Token) returns (r: StepResult)
      requires L.WellFormedToken(t) && stack != []
      modifies this
      ensures (r, Snapshot()) == AfterWidth(old(Snapshot()), t)
    {
      Pop();
      if t.kind == L.TokenAttribute {
        r := BeginAttribute(t);
      } else if t.kind == L.TokenDateAttribute {
        r := BeginDateAttribute(t);
      } else {
        r := Abort;
      }
    }

    method StepDateAttribute(t: L.Token) returns (r: StepResult)
      requires stack != []
      modifies this
      ensures (r, Snapshot()) == AfterDate(old(Snapshot()), t)
    {
      r := Continue;
      if t.kind == L.TokenDateFormat {
        if |t.text| < FmtBufferMax {
          format := t.text;
        }
        r := Next;
      }
      Pop();
    }

    /** The switch on the top state in the loop of _format_parse. */
    method Step(t: L.Token) returns (r: StepResult)
      requires PInv(Snapshot()) && L.WellFormedToken(t)
      modifies this
      ensures (r, Snapshot()) == Stepped(old(Snapshot()), t)
    {
      var state := stack[|stack| - 1];
      if state == AtNone {
        r := StepNone(t);
      } else if state == InText {
        r := StepString(t);
      } else if state == InFlags {
        r := StepFlag(t);
      } else if state == InWidth {
        r := StepWidth(t);
      } else {
        r := StepDateAttribute(t);
      }
    }

    /** _format_parse on a freshly initialised context. */
    method Parse(toks: seq<L.Token>) returns (success: bool)
      requires L.WellFormedTokens(toks)
      requires Snapshot() == PCtx([], 0, 0, 0, [], [], '\0', [])
      modifies this
      ensures (success, Snapshot()) == Parsed(toks)
    {
      stack := stack + [AtNone];
      ResetCache();
      var i := 0;
      var result := Next;
      hide ParsedFrom, Stepped;
      while i < |toks| && result != Abort
        invariant i <= |toks|
        invariant result != Abort ==> PInv(Snapshot()) && ParsedFrom(Snapshot(), toks, i) == Parsed(toks)
        invariant result == Abort ==> (false, Snapshot()) == Parsed(toks)
        invariant i == |toks| ==> result == Next
        decreases if result == Abort then 0 else 1, |toks| - i, if i < |toks| && result != Abort then Rank(Snapshot(), toks[i]) else 0
      {
        ParsedFromStep(Snapshot(), toks, i);
        result := Step(toks[i]);
        if result == Next {
          i := i + 1;
        }
      }
      success := false;
      if result == Next {
        ParsedFromEnd(Snapshot(), toks);
        Pop();
        success := true;
      }
    }

    /** format_parse: the nodes of a successful parse, none otherwise. */
    static method FormatParse(fmt: string) returns (r: ParseResult)
      requires '\0' !in fmt
      ensures r == FormatParsed(fmt)
    {
      var lexed := L.Lexer.Scan(fmt);
      r := ParseResult(false, []);
      if lexed.success {
        L.LexWellFormed(fmt);
        var ctx := new Parser();
        var ok := ctx.Parse(lexed.tokens);
        if ok {
          r := ParseResult(true, ctx.nodes);
        }
      }
    }
  }
}
