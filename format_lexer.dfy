/**
 * The format-string lexer of format-lexer.c. A copy of the format string is
 * scanned with two offsets, start (first char of the pending token) and tail
 * (the char under inspection), driven by a stack of states. Text, escape
 * sequences, and the flags, width, field names and attributes of a
 * '%'-field become tokens; a "{name}" inside a field is rewritten in place
 * into its field char and scanned again.
 *
 * The step functions below state what each C step does to the context; the
 * class Lexer performs the same steps by updating its fields, and its scan
 * is proved to produce what Lex describes.
 */
module FormatLexer {
  import Decimal
  import FormatFields

  /** FORMAT_TEXT_BUFFER_MAX: format strings must be shorter. */
  const TextBufferMax: nat := 4096

  /**
   * The char classes the lexer looks chars up in with strchr; a lookup of
   * '\0' also succeeds there, which is why every test guards on it.
   */
  const Attributes: set<char> := {'b', 'f', 'g', 'G', 'h', 'i', 'k', 'l', 'm', 'M', 'n', 'p', 's', 'S', 'u', 'U', 'y', 'Y', 'p', 'P', 'H', 'F', 'D', 'a', 'c', 't'}
  const DateAttributes: set<char> := {'A', 'C', 'T'}
  const TimeFields: set<char> := {'H', 'I', 'k', 'l', 'M', 'p', 'r', 'S', 'T', '+', 'X', 'Z'}
  const DateFields: set<char> := {'a', 'A', 'b', 'B', 'c', 'd', 'D', 'h', 'j', 'm', 'U', 'w', 'W', 'x', 'y', 'Y'}
  const Flags: set<char> := {'-', '0', '#', ' ', '+'}

  datatype TokenType =
    | TokenInvalid | TokenString | TokenFlag | TokenNumber
    | TokenAttribute | TokenDateAttribute | TokenDateFormat | TokenEscapeSeq

  /** A token and its text (the C token points into the format copy; here the text is held). */
  datatype Token = Token(kind: TokenType, text: string)

  datatype LexState =
    | StateString | StateAttr | StateWidth | StatePrecision
    | StateDateAttr | StateEscapeSeq | StateFieldName

  datatype StepResult = Continue | Abort | Finished

  /** The lexer's context: the format copy, start and tail, the state stack (top last), the tokens found. */
  datatype Ctx = Ctx(fmt: string, start: nat, tail: nat, stack: seq<LexState>, tokens: seq<Token>)

  /** isalpha in the C locale. */
  predicate IsAlpha(ch: char)
  {
    'a' <= ch <= 'z' || 'A' <= ch <= 'Z'
  }

  /** The char at offset i of the copy; the terminating NUL past its end. */
  function CharAt(c: Ctx, i: nat): char
  {
    if i < |c.fmt| then c.fmt[i] else '\0'
  }

  /** Offsets in range. */
  predicate Bounded(c: Ctx)
  {
    c.start <= c.tail <= |c.fmt|
  }

  /** len - (tail - fmt): the chars not yet inspected. */
  function Left(c: Ctx): nat
    requires Bounded(c)
  {
    |c.fmt| - c.tail
  }

  function Top(c: Ctx): LexState
    requires c.stack != []
  {
    c.stack[|c.stack| - 1]
  }

  /** The stack shapes the scan goes through: a field sits on the string state, a width or field name on the field. */
  predicate StackShape(st: seq<LexState>)
  {
    st == [StateString]
    || st == [StateString, StateAttr]
    || st == [StateString, StateAttr, StateFieldName]
    || st == [StateString, StateAttr, StateWidth]
    || st == [StateString, StateAttr, StateWidth, StatePrecision]
    || st == [StateString, StateDateAttr]
  }

  /** What holds between steps: a C string, offsets in range, a known stack shape, and a field name under way. */
  predicate Inv(c: Ctx)
  {
    '\0' !in c.fmt && Bounded(c) && StackShape(c.stack)
    && (Top(c) == StateFieldName ==> c.start < c.tail)
  }

  /** Every step that continues lowers this. */
  function Measure(c: Ctx): nat
    requires Bounded(c)
  {
    3 * Left(c) + |c.stack| + (if c.start < c.tail then 1 else 0)
  }

  /** _format_lexer_pop. */
  function Popped(c: Ctx): Ctx
    requires c.stack != []
  {
    c.(stack := c.stack[..|c.stack| - 1], start := c.tail)
  }

  /** _format_lexer_push. */
  function Pushed(c: Ctx, s: LexState, offset: nat): Ctx
    requires offset > 0
  {
    c.(stack := c.stack + [s], start := c.tail, tail := c.tail + offset)
  }

  predicate IsTextToken(t: TokenType)
  {
    t == TokenString || t == TokenEscapeSeq || t == TokenNumber || t == TokenDateFormat
  }

  predicate IsCharToken(t: TokenType)
  {
    t == TokenFlag || t == TokenAttribute || t == TokenDateAttribute
  }

  /**
   * _format_lexer_found_token: a text token takes start..tail when that is
   * non-empty; a char token takes the char at tail.
   */
  function WithToken(c: Ctx, t: TokenType): Ctx
    requires Bounded(c) && (IsTextToken(t) || IsCharToken(t))
  {
    if IsTextToken(t) then
      if c.start < c.tail && CharAt(c, c.start) != '\0' then c.(tokens := c.tokens + [Token(t, c.fmt[c.start..c.tail])])
      else c
    else c.(tokens := c.tokens + [Token(t, [CharAt(c, c.tail)])])
  }

  /** _format_lexer_step_date_attr: date and time field chars extend the date format; anything else ends it. */
  function AfterDateAttr(c: Ctx): Ctx
    requires Bounded(c) && c.stack != []
  {
    var ch := CharAt(c, c.tail);
    if ch != '\0' && (ch in DateFields || ch in TimeFields) then c.(tail := c.tail + 1)
    else Popped(WithToken(c, TokenDateFormat))
  }

  /** _format_lexer_process_precision: digits extend the number; anything else ends width and precision. */
  function AfterPrecision(c: Ctx): Ctx
    requires Bounded(c) && |c.stack| >= 2
  {
    if Decimal.IsDigit(CharAt(c, c.tail)) then c.(tail := c.tail + 1)
    else Popped(Popped(WithToken(c, TokenNumber)))
  }

  /** _format_lexer_process_width: digits extend the number, '.' starts the precision, anything else ends it. */
  function AfterWidth(c: Ctx): Ctx
    requires Bounded(c) && c.stack != []
  {
    var ch := CharAt(c, c.tail);
    if Decimal.IsDigit(ch) then c.(tail := c.tail + 1)
    else if ch == '.' then c.(stack := c.stack + [StatePrecision], tail := c.tail + 1)
    else Popped(WithToken(c, TokenNumber))
  }

  /**
   * _format_lexer_substitute_current_field_char: the name between '{' (at
   * start) and '}' (at tail) is mapped; "{name" is cut out, the '}' becomes
   * the field char, and the scan goes back to the field with tail on it.
   */
  function AfterFieldNameEnd(c: Ctx): (bool, Ctx)
    requires c.start < c.tail < |c.fmt| && c.stack != []
  {
    var field := FormatFields.MapFieldName(c.fmt[c.start + 1..c.tail]);
    if field != '\0' then
      (true, Popped(c.(fmt := c.fmt[..c.start] + [field] + c.fmt[c.tail + 1..], tail := c.start)))
    else (false, c)
  }

  /** _format_lexer_step_field_name: letters and '-' extend the name, '}' ends it, anything else fails. */
  function AfterFieldName(c: Ctx): (bool, Ctx)
    requires Bounded(c) && c.start < c.tail && c.stack != []
  {
    var ch := CharAt(c, c.tail);
    if IsAlpha(ch) || ch == '-' then (true, c.(tail := c.tail + 1))
    else if ch == '}' then AfterFieldNameEnd(c)
    else (false, Popped(c))
  }

  /**
   * _format_lexer_step_field: a flag char is a flag token; '{' starts a field
   * name; an attribute char is the last token of the field; a date attribute
   * starts a date format; a digit 1-9 starts a width; anything else fails.
   */
  function AfterField(c: Ctx): (bool, Ctx)
    requires Bounded(c) && c.stack != []
  {
    var ch := CharAt(c, c.tail);
    if ch != '\0' && ch in Flags then (true, WithToken(c, TokenFlag).(tail := c.tail + 1))
    else if ch == '{' then (true, Pushed(c, StateFieldName, 1))
    else if ch != '\0' && ch in Attributes then (true, Popped(WithToken(c, TokenAttribute).(tail := c.tail + 1)))
    else if ch != '\0' && ch in DateAttributes then
      var d := Pushed(Popped(WithToken(c, TokenDateAttribute)), StateDateAttr, 1);
      (true, d.(start := d.start + 1))
    else if ch != '\0' && Decimal.IsDigit(ch) && ch != '0' then (true, Pushed(c, StateWidth, 1))
    else (false, c)
  }

  /**
   * _format_lexer_process_percent_in_string: the text so far becomes a
   * token; "%%" is a text token holding one '%', any other char after '%'
   * opens a field, and a '%' at the end fails.
   */
  function AfterPercent(c: Ctx): (bool, Ctx)
    requires Bounded(c) && c.stack != []
  {
    if Left(c) >= 2 then
      if c.fmt[c.tail + 1] == '%' then
        var p := WithToken(WithToken(c, TokenString).(start := c.tail + 1, tail := c.tail + 2), TokenString);
        (true, p.(start := p.start + 1))
      else (true, Pushed(WithToken(c, TokenString), StateAttr, 1))
    else (false, c)
  }

  predicate EscapeLead(ch: char)
  {
    ch == 'x' || Decimal.IsDigit(ch)
  }

  /**
   * The chars a backslash escape spans, by the four tests of
   * format-lexer.c in order; 0 when no char follows the backslash.
   */
  function EscapeLength(c: Ctx): (n: nat)
    requires Bounded(c)
    ensures n <= Left(c)
    ensures n == 0 <==> Left(c) < 2
    ensures n == 0 || 2 <= n <= 4
  {
    var t := c.tail;
    if Left(c) >= 4 && EscapeLead(CharAt(c, t + 1)) && Decimal.IsDigit(CharAt(c, t + 2)) && Decimal.IsDigit(CharAt(c, t + 3)) then 4
    else if Left(c) >= 3 && EscapeLead(CharAt(c, t + 1)) && Decimal.IsDigit(CharAt(c, t + 2)) then 3
    else if Left(c) >= 2 && Decimal.IsDigit(CharAt(c, t + 1)) then 2
    else if Left(c) >= 2 then 2
    else 0
  }

  /** _format_lexer_process_blackslash_in_string: the text so far becomes a token, then the escape does. */
  function AfterBackslash(c: Ctx): (bool, Ctx)
    requires Bounded(c)
  {
    var s := WithToken(c, TokenString).(start := c.tail);
    var n := EscapeLength(c);
    if n > 0 then
      var e := WithToken(s.(tail := c.tail + n), TokenEscapeSeq);
      (true, e.(start := e.tail))
    else (false, s)
  }

  /** _format_lexer_step_string. */
  function AfterString(c: Ctx): (bool, Ctx)
    requires Bounded(c) && c.stack != []
  {
    var ch := CharAt(c, c.tail);
    if ch == '\0' then (true, WithToken(c, TokenString).(start := c.tail))
    else if ch == '%' then AfterPercent(c)
    else if ch == '\\' then AfterBackslash(c)
    else (true, c.(tail := c.tail + 1))
  }

  function Lift(r: (bool, Ctx)): (StepResult, Ctx)
  {
    (if r.0 then Continue else Abort, r.1)
  }

  /**
   * _format_lexer_step: FINISHED once no chars are left and nothing is
   * pending, otherwise the step of the state on top of the stack. The C
   * step also aborts on an empty stack and on an unknown state; Inv rules
   * both out, so they are not cases here.
   */
  function Stepped(c: Ctx): (StepResult, Ctx)
    requires Inv(c)
  {
    if Left(c) == 0 && c.start == c.tail then (Finished, c)
    else
      var top := Top(c);
      if top == StateString then Lift(AfterString(c))
      else if top == StateAttr then Lift(AfterField(c))
      else if top == StateFieldName then Lift(AfterFieldName(c))
      else if top == StateWidth then (Continue, AfterWidth(c))
      else if top == StatePrecision then (Continue, AfterPrecision(c))
      else (Continue, AfterDateAttr(c))
  }

  /** A step that continues keeps the invariant and lowers the measure. */
  lemma StepProgress(c: Ctx)
    requires Inv(c)
    ensures Stepped(c).0 == Continue ==> Inv(Stepped(c).1) && Measure(Stepped(c).1) < Measure(c)
  {
    if Left(c) == 0 && c.start == c.tail {
    } else {
      var top := Top(c);
      if top == StateString {
        StringProgress(c);
      } else if top == StateAttr {
        FieldProgress(c);
      } else if top == StateFieldName {
        FieldNameProgress(c);
      } else if top == StateWidth {
        WidthProgress(c);
      } else if top == StatePrecision {
        PrecisionProgress(c);
      } else {
        DateAttrProgress(c);
      }
    }
  }

  lemma WidthProgress(c: Ctx)
    requires Inv(c) && c.stack == [StateString, StateAttr, StateWidth]
    ensures Inv(AfterWidth(c)) && Measure(AfterWidth(c)) < Measure(c)
  {
  }

  lemma PrecisionProgress(c: Ctx)
    requires Inv(c) && c.stack == [StateString, StateAttr, StateWidth, StatePrecision]
    ensures Inv(AfterPrecision(c)) && Measure(AfterPrecision(c)) < Measure(c)
  {
  }

  lemma DateAttrProgress(c: Ctx)
    requires Inv(c) && c.stack == [StateString, StateDateAttr]
    ensures Inv(AfterDateAttr(c)) && Measure(AfterDateAttr(c)) < Measure(c)
  {
  }

  lemma StringProgress(c: Ctx)
    requires Inv(c) && c.stack == [StateString] && !(Left(c) == 0 && c.start == c.tail)
    ensures AfterString(c).0 ==> Inv(AfterString(c).1) && Measure(AfterString(c).1) < Measure(c)
  {
    var ch := CharAt(c, c.tail);
    if ch == '%' {
      assert c.tail < |c.fmt|;
    } else if ch == '\\' {
      assert c.tail < |c.fmt|;
    }
  }

  lemma FieldProgress(c: Ctx)
    requires Inv(c) && c.stack == [StateString, StateAttr]
    ensures AfterField(c).0 ==> Inv(AfterField(c).1) && Measure(AfterField(c).1) < Measure(c)
  {
  }

  lemma FieldNameProgress(c: Ctx)
    requires Inv(c) && c.stack == [StateString, StateAttr, StateFieldName]
    ensures AfterFieldName(c).0 ==> Inv(AfterFieldName(c).1) && Measure(AfterFieldName(c).1) < Measure(c)
  {
    hide FormatFields.MapFieldName;
    var ch := CharAt(c, c.tail);
    if ch == '}' {
      var field := FormatFields.MapFieldName(c.fmt[c.start + 1..c.tail]);
      if field != '\0' {
        var f := c.fmt[..c.start] + [field] + c.fmt[c.tail + 1..];
        assert |f| == |c.fmt| - (c.tail - c.start);
        assert '\0' !in f;
      }
    }
  }

  /** The do-while loop of format_lexer_scan: step until a step does not continue. */
  function Scanned(c: Ctx): (r: (StepResult, Ctx))
    requires Inv(c)
    ensures r.0 != Continue
    decreases Measure(c)
  {
    StepProgress(c);
    var (s, next) := Stepped(c);
    if s == Continue then Scanned(next) else (s, next)
  }

  /** The result of a scan: success, and the tokens found. */
  datatype LexResult = LexResult(success: bool, tokens: seq<Token>)

  function Init(format: string): Ctx
  {
    Ctx(format, 0, 0, [StateString], [])
  }

  /**
   * format_lexer_scan: a format string of FORMAT_TEXT_BUFFER_MAX chars or more
   * is refused; otherwise the scan succeeds exactly when it ends FINISHED.
   */
  function Lex(format: string): (r: LexResult)
    requires '\0' !in format
    ensures |format| >= TextBufferMax ==> !r.success
  {
    if |format| >= TextBufferMax then LexResult(false, [])
    else
      var (s, c) := Scanned(Init(format));
      LexResult(s == Finished, c.tokens)
  }

  /** format_lexer_result_first_token: the tokens of a successful scan, none otherwise. */
  function FirstTokens(r: LexResult): seq<Token>
  {
    if r.success then r.tokens else []
  }

  /** What format-parser.c asserts of a token: an escape starts with a backslash and has two chars or more, a flag or attribute has one char. */
  predicate WellFormedToken(t: Token)
  {
    (t.kind == TokenEscapeSeq ==> |t.text| >= 2 && t.text[0] == '\\')
    && (IsCharToken(t.kind) ==> |t.text| == 1)
  }

  predicate WellFormedTokens(ts: seq<Token>)
  {
    forall k :: 0 <= k < |ts| ==> WellFormedToken(ts[k])
  }

  lemma AppendWellFormed(ts: seq<Token>, t: Token)
    requires WellFormedTokens(ts) && WellFormedToken(t)
    ensures WellFormedTokens(ts + [t])
  {
  }

  /** Text tokens other than escapes carry no shape constraint. */
  lemma TextTokenWellFormed(c: Ctx, t: TokenType)
    requires Bounded(c) && IsTextToken(t) && t != TokenEscapeSeq && WellFormedTokens(c.tokens)
    ensures WellFormedTokens(WithToken(c, t).tokens)
  {
  }

  lemma CharTokenWellFormed(c: Ctx, t: TokenType)
    requires Bounded(c) && IsCharToken(t) && WellFormedTokens(c.tokens)
    ensures WellFormedTokens(WithToken(c, t).tokens)
  {
  }

  lemma BackslashWellFormed(c: Ctx)
    requires Bounded(c) && c.tail < |c.fmt| && c.fmt[c.tail] == '\\' && WellFormedTokens(c.tokens)
    ensures WellFormedTokens(AfterBackslash(c).1.tokens)
  {
    TextTokenWellFormed(c, TokenString);
    var s := WithToken(c, TokenString).(start := c.tail);
    var n := EscapeLength(c);
    if n > 0 {
      var e := s.(tail := c.tail + n);
      assert e.fmt[e.start..e.tail][0] == '\\';
      assert WellFormedToken(Token(TokenEscapeSeq, e.fmt[e.start..e.tail]));
      AppendWellFormed(s.tokens, Token(TokenEscapeSeq, e.fmt[e.start..e.tail]));
    }
  }

  lemma StringWellFormed(c: Ctx)
    requires Bounded(c) && c.stack != [] && WellFormedTokens(c.tokens)
    ensures WellFormedTokens(AfterString(c).1.tokens)
  {
    var ch := CharAt(c, c.tail);
    if ch == '\0' {
      TextTokenWellFormed(c, TokenString);
    } else if ch == '%' {
      TextTokenWellFormed(c, TokenString);
      if Left(c) >= 2 && c.fmt[c.tail + 1] == '%' {
        TextTokenWellFormed(WithToken(c, TokenString).(start := c.tail + 1, tail := c.tail + 2), TokenString);
      }
    } else if ch == '\\' {
      BackslashWellFormed(c);
    }
  }

  lemma FieldWellFormed(c: Ctx)
    requires Bounded(c) && c.stack != [] && WellFormedTokens(c.tokens)
    ensures WellFormedTokens(AfterField(c).1.tokens)
  {
    CharTokenWellFormed(c, TokenFlag);
    CharTokenWellFormed(c, TokenAttribute);
    CharTokenWellFormed(c, TokenDateAttribute);
  }

  /** Every token a step adds is well formed. */
  lemma StepWellFormed(c: Ctx)
    requires Inv(c) && WellFormedTokens(c.tokens)
    ensures WellFormedTokens(Stepped(c).1.tokens)
  {
    if Left(c) == 0 && c.start == c.tail {
    } else if Top(c) == StateString {
      StringWellFormed(c);
    } else if Top(c) == StateAttr {
      FieldWellFormed(c);
    } else if Top(c) == StateWidth || Top(c) == StatePrecision || Top(c) == StateDateAttr {
      TextTokenWellFormed(c, TokenNumber);
      TextTokenWellFormed(c, TokenDateFormat);
    }
  }

  lemma {:induction false} ScanWellFormed(c: Ctx)
    requires Inv(c) && WellFormedTokens(c.tokens)
    ensures WellFormedTokens(Scanned(c).1.tokens)
    decreases Measure(c)
  {
    StepWellFormed(c);
    StepProgress(c);
    if Stepped(c).0 == Continue {
      ScanWellFormed(Stepped(c).1);
    }
  }

  /** The lexer only produces tokens of the shapes the parser asserts. */
  lemma LexWellFormed(format: string)
    requires '\0' !in format
    ensures WellFormedTokens(Lex(format).tokens)
  {
    if |format| < TextBufferMax {
      ScanWellFormed(Init(format));
    }
  }

  /** Text the string state passes over char by char. */
  predicate Plain(s: string)
  {
    '%' !in s && '\\' !in s && '\0' !in s
  }

  /** Chars the field-name state passes over. */
  predicate NameChars(s: string)
  {
    forall k :: 0 <= k < |s| ==> IsAlpha(s[k]) || s[k] == '-'
  }

  predicate DateChars(s: string)
  {
    forall k :: 0 <= k < |s| ==> s[k] in DateFields || s[k] in TimeFields
  }

  /** The string token pending text becomes: none for empty text. */
  function TextTokens(s: string): seq<Token>
  {
    if s == [] then [] else [Token(TokenString, s)]
  }

  /** The token a field char ends its field with. */
  function FieldCharKind(ch: char): TokenType
  {
    if ch in DateAttributes then TokenDateAttribute else TokenAttribute
  }

  /** The string state skips plain text without emitting anything. */
  lemma {:induction false} SkipPlain(c: Ctx, k: nat)
    requires Inv(c) && c.stack == [StateString] && c.tail + k <= |c.fmt|
    requires Plain(c.fmt[c.tail..c.tail + k])
    ensures Inv(c.(tail := c.tail + k))
    ensures Scanned(c) == Scanned(c.(tail := c.tail + k))
    decreases k
  {
    hide Scanned;
    if k > 0 {
      var c1 := c.(tail := c.tail + 1);
      assert c.fmt[c.tail] == c.fmt[c.tail..c.tail + k][0];
      assert Stepped(c) == (Continue, c1);
      ScanStep(c);
      hide Stepped;
      assert c1.fmt[c1.tail..c1.tail + (k - 1)] == c.fmt[c.tail..c.tail + k][1..];
      SkipPlain(c1, k - 1);
      assert c1.(tail := c1.tail + (k - 1)) == c.(tail := c.tail + k);
    }
  }

  /** The field-name state skips letters and '-'. */
  lemma {:induction false} SkipName(c: Ctx, k: nat)
    requires Inv(c) && c.stack == [StateString, StateAttr, StateFieldName] && c.tail + k <= |c.fmt|
    requires NameChars(c.fmt[c.tail..c.tail + k])
    ensures Inv(c.(tail := c.tail + k))
    ensures Scanned(c) == Scanned(c.(tail := c.tail + k))
    decreases k
  {
    hide Scanned;
    if k > 0 {
      var c1 := c.(tail := c.tail + 1);
      assert c.fmt[c.tail] == c.fmt[c.tail..c.tail + k][0];
      assert Stepped(c) == (Continue, c1);
      ScanStep(c);
      hide Stepped;
      assert c1.fmt[c1.tail..c1.tail + (k - 1)] == c.fmt[c.tail..c.tail + k][1..];
      SkipName(c1, k - 1);
      assert c1.(tail := c1.tail + (k - 1)) == c.(tail := c.tail + k);
    }
  }

  /** The width and precision states skip digits. */
  lemma {:induction false} SkipDigits(c: Ctx, k: nat)
    requires Inv(c) && (c.stack == [StateString, StateAttr, StateWidth] || c.stack == [StateString, StateAttr, StateWidth, StatePrecision])
    requires c.start < c.tail && c.tail + k <= |c.fmt| && Decimal.AllDigits(c.fmt[c.tail..c.tail + k])
    ensures Inv(c.(tail := c.tail + k))
    ensures Scanned(c) == Scanned(c.(tail := c.tail + k))
    decreases k
  {
    hide Scanned;
    if k > 0 {
      var c1 := c.(tail := c.tail + 1);
      assert c.fmt[c.tail] == c.fmt[c.tail..c.tail + k][0];
      assert Stepped(c) == (Continue, c1);
      ScanStep(c);
      hide Stepped;
      assert c1.fmt[c1.tail..c1.tail + (k - 1)] == c.fmt[c.tail..c.tail + k][1..];
      SkipDigits(c1, k - 1);
      assert c1.(tail := c1.tail + (k - 1)) == c.(tail := c.tail + k);
    }
  }

  /** The date-format state skips date and time field chars. */
  lemma {:induction false} SkipDateChars(c: Ctx, k: nat)
    requires Inv(c) && c.stack == [StateString, StateDateAttr] && c.tail + k <= |c.fmt|
    requires c.start < c.tail || k == 0
    requires DateChars(c.fmt[c.tail..c.tail + k])
    ensures Inv(c.(tail := c.tail + k))
    ensures Scanned(c) == Scanned(c.(tail := c.tail + k))
    decreases k
  {
    hide Scanned;
    if k > 0 {
      var c1 := c.(tail := c.tail + 1);
      assert c.fmt[c.tail] == c.fmt[c.tail..c.tail + k][0];
      assert Stepped(c) == (Continue, c1);
      ScanStep(c);
      hide Stepped;
      assert c1.fmt[c1.tail..c1.tail + (k - 1)] == c.fmt[c.tail..c.tail + k][1..];
      SkipDateChars(c1, k - 1);
      assert c1.(tail := c1.tail + (k - 1)) == c.(tail := c.tail + k);
    }
  }

  /** A step that continues, and the scan after it. */
  lemma ScanStep(c: Ctx)
    requires Inv(c)
    ensures Stepped(c).0 == Continue ==> Inv(Stepped(c).1) && Scanned(c) == Scanned(Stepped(c).1)
    ensures Stepped(c).0 != Continue ==> Scanned(c) == Stepped(c)
  {
    StepProgress(c);
  }

  /** Char classes of format-lexer.c that the field step tells apart. */
  lemma AttributeCharFacts(ch: char)
    requires ch in Attributes
    ensures ch !in Flags && ch != '{' && ch != '%' && ch != '\0' && ch !in DateAttributes && !Decimal.IsDigit(ch) && ch != '.'
  {
  }

  lemma DateAttributeCharFacts(ch: char)
    requires ch in DateAttributes
    ensures ch !in Flags && ch != '{' && ch != '%' && ch != '\0' && ch !in Attributes && !Decimal.IsDigit(ch) && ch != '.'
  {
  }

  lemma FlagCharFacts(ch: char)
    requires ch in Flags
    ensures ch != '{' && ch != '%' && ch != '\0'
  {
  }

  lemma WidthCharFacts(ch: char)
    requires Decimal.IsDigit(ch) && ch != '0'
    ensures ch !in Flags && ch != '{' && ch !in Attributes && ch !in DateAttributes && ch != '\0' && ch != '%'
  {
  }

  lemma DateCharFacts(ch: char)
    requires ch in DateFields || ch in TimeFields
    ensures ch != '\0' && ch != '%'
  {
  }

  /** No step once nothing is left. */
  lemma StepFinished(c: Ctx)
    requires Inv(c) && c.start == c.tail == |c.fmt|
    ensures Stepped(c) == (Finished, c)
  {
  }

  /** The pending text of the string state as a token list: what _format_lexer_found_token adds. */
  lemma PendingText(c: Ctx)
    requires Inv(c)
    ensures WithToken(c, TokenString).tokens == c.tokens + TextTokens(c.fmt[c.start..c.tail])
    ensures WithToken(c, TokenString) == c.(tokens := c.tokens + TextTokens(c.fmt[c.start..c.tail]))
  {
    if c.start < c.tail {
      assert c.fmt[c.start] in c.fmt;
    } else {
      assert c.tokens + [] == c.tokens;
    }
  }

  lemma StepPlainChar(c: Ctx)
    requires Inv(c) && c.stack == [StateString] && c.tail < |c.fmt| && c.fmt[c.tail] != '%' && c.fmt[c.tail] != '\\'
    ensures Stepped(c) == (Continue, c.(tail := c.tail + 1))
  {
  }

  lemma StepTextEnd(c: Ctx)
    requires Inv(c) && c.stack == [StateString] && c.start < c.tail == |c.fmt|
    ensures Stepped(c) == (Continue, c.(start := c.tail, tokens := c.tokens + TextTokens(c.fmt[c.start..c.tail])))
  {
    PendingText(c);
  }

  lemma StepOpenField(c: Ctx)
    requires Inv(c) && c.stack == [StateString] && c.tail + 1 < |c.fmt| && c.fmt[c.tail] == '%' && c.fmt[c.tail + 1] != '%'
    ensures Stepped(c) == (Continue, Ctx(c.fmt, c.tail, c.tail + 1, [StateString, StateAttr], c.tokens + TextTokens(c.fmt[c.start..c.tail])))
  {
    PendingText(c);
    assert [StateString] + [StateAttr] == [StateString, StateAttr];
  }

  lemma StepDoublePercent(c: Ctx)
    requires Inv(c) && c.stack == [StateString] && c.tail + 1 < |c.fmt| && c.fmt[c.tail] == '%' && c.fmt[c.tail + 1] == '%'
    ensures Stepped(c) == (Continue, Ctx(c.fmt, c.tail + 2, c.tail + 2, [StateString], c.tokens + TextTokens(c.fmt[c.start..c.tail]) + [Token(TokenString, "%")]))
  {
    PendingText(c);
    assert c.fmt[c.tail + 1..c.tail + 2] == "%";
  }

  lemma StepTrailingPercent(c: Ctx)
    requires Inv(c) && c.stack == [StateString] && c.tail + 1 == |c.fmt| && c.fmt[c.tail] == '%'
    ensures Stepped(c) == (Abort, c)
  {
  }

  lemma StepEscape(c: Ctx)
    requires Inv(c) && c.stack == [StateString] && c.tail < |c.fmt| && c.fmt[c.tail] == '\\'
    ensures EscapeLength(c) <= Left(c)
    ensures EscapeLength(c) == 0 ==> Stepped(c) == (Abort, c.(start := c.tail, tokens := c.tokens + TextTokens(c.fmt[c.start..c.tail])))
    ensures EscapeLength(c) > 0 ==>
      var n := EscapeLength(c);
      Stepped(c) == (Continue, Ctx(c.fmt, c.tail + n, c.tail + n, [StateString],
                                   c.tokens + TextTokens(c.fmt[c.start..c.tail]) + [Token(TokenEscapeSeq, c.fmt[c.tail..c.tail + n])]))
  {
    PendingText(c);
    assert c.fmt[c.tail] in c.fmt;
  }

  lemma StepAttribute(c: Ctx)
    requires Inv(c) && c.stack == [StateString, StateAttr] && c.tail < |c.fmt| && c.fmt[c.tail] in Attributes
    ensures Stepped(c) == (Continue, Ctx(c.fmt, c.tail + 1, c.tail + 1, [StateString], c.tokens + [Token(TokenAttribute, [c.fmt[c.tail]])]))
  {
    AttributeCharFacts(c.fmt[c.tail]);
    assert [StateString, StateAttr][..1] == [StateString];
  }

  lemma StepDateAttribute(c: Ctx)
    requires Inv(c) && c.stack == [StateString, StateAttr] && c.tail < |c.fmt| && c.fmt[c.tail] in DateAttributes
    ensures Stepped(c) == (Continue, Ctx(c.fmt, c.tail + 1, c.tail + 1, [StateString, StateDateAttr], c.tokens + [Token(TokenDateAttribute, [c.fmt[c.tail]])]))
  {
    DateAttributeCharFacts(c.fmt[c.tail]);
    assert [StateString, StateAttr][..1] + [StateDateAttr] == [StateString, StateDateAttr];
  }

  lemma StepFlag(c: Ctx)
    requires Inv(c) && c.stack == [StateString, StateAttr] && c.tail < |c.fmt| && c.fmt[c.tail] in Flags
    ensures Stepped(c) == (Continue, c.(tail := c.tail + 1, tokens := c.tokens + [Token(TokenFlag, [c.fmt[c.tail]])]))
  {
    FlagCharFacts(c.fmt[c.tail]);
  }

  lemma StepOpenName(c: Ctx)
    requires Inv(c) && c.stack == [StateString, StateAttr] && c.tail < |c.fmt| && c.fmt[c.tail] == '{'
    ensures Stepped(c) == (Continue, Ctx(c.fmt, c.tail, c.tail + 1, [StateString, StateAttr, StateFieldName], c.tokens))
  {
    assert [StateString, StateAttr] + [StateFieldName] == [StateString, StateAttr, StateFieldName];
  }

  lemma StepOpenWidth(c: Ctx)
    requires Inv(c) && c.stack == [StateString, StateAttr] && c.tail < |c.fmt|
    requires Decimal.IsDigit(c.fmt[c.tail]) && c.fmt[c.tail] != '0'
    ensures Stepped(c) == (Continue, Ctx(c.fmt, c.tail, c.tail + 1, [StateString, StateAttr, StateWidth], c.tokens))
  {
    WidthCharFacts(c.fmt[c.tail]);
    assert [StateString, StateAttr] + [StateWidth] == [StateString, StateAttr, StateWidth];
  }

  lemma StepDot(c: Ctx)
    requires Inv(c) && c.stack == [StateString, StateAttr, StateWidth] && c.tail < |c.fmt| && c.fmt[c.tail] == '.'
    ensures Stepped(c) == (Continue, c.(stack := [StateString, StateAttr, StateWidth, StatePrecision], tail := c.tail + 1))
  {
    assert [StateString, StateAttr, StateWidth] + [StatePrecision] == [StateString, StateAttr, StateWidth, StatePrecision];
  }

  /** The char ending a width (not a digit, not '.') or a precision (not a digit): the number token, back to the field. */
  lemma StepNumberEnd(c: Ctx)
    requires Inv(c) && c.start < c.tail && !Decimal.IsDigit(CharAt(c, c.tail))
    requires (c.stack == [StateString, StateAttr, StateWidth] && CharAt(c, c.tail) != '.')
          || c.stack == [StateString, StateAttr, StateWidth, StatePrecision]
    ensures Stepped(c) == (Continue, Ctx(c.fmt, c.tail, c.tail, [StateString, StateAttr], c.tokens + [Token(TokenNumber, c.fmt[c.start..c.tail])]))
  {
    assert c.fmt[c.start] in c.fmt;
    assert [StateString, StateAttr, StateWidth][..2] == [StateString, StateAttr];
    assert [StateString, StateAttr, StateWidth, StatePrecision][..3][..2] == [StateString, StateAttr];
  }

  lemma StepDateChar(c: Ctx)
    requires Inv(c) && c.stack == [StateString, StateDateAttr] && c.tail < |c.fmt|
    requires c.fmt[c.tail] in DateFields || c.fmt[c.tail] in TimeFields
    ensures Stepped(c) == (Continue, c.(tail := c.tail + 1))
  {
  }

  lemma StepDateEnd(c: Ctx)
    requires Inv(c) && c.stack == [StateString, StateDateAttr] && c.start < c.tail == |c.fmt|
    ensures Stepped(c) == (Continue, Ctx(c.fmt, c.tail, c.tail, [StateString], c.tokens + [Token(TokenDateFormat, c.fmt[c.start..c.tail])]))
  {
    assert c.fmt[c.start] in c.fmt;
    assert [StateString, StateDateAttr][..1] == [StateString];
  }

  lemma StepCloseName(c: Ctx)
    requires Inv(c) && c.stack == [StateString, StateAttr, StateFieldName] && c.tail < |c.fmt| && c.fmt[c.tail] == '}'
    ensures var field := FormatFields.MapFieldName(c.fmt[c.start + 1..c.tail]);
      Stepped(c) == if field == '\0' then (Abort, c)
                    else (Continue, Ctx(c.fmt[..c.start] + [field] + c.fmt[c.tail + 1..], c.start, c.start, [StateString, StateAttr], c.tokens))
  {
    hide FormatFields.MapFieldName;
    assert [StateString, StateAttr, StateFieldName][..2] == [StateString, StateAttr];
  }

  /** Past the last char the pending text becomes a string token and the scan finishes. */
  lemma EndOfText(c: Ctx)
    requires Inv(c) && c.stack == [StateString] && c.tail == |c.fmt|
    ensures Scanned(c) == (Finished, c.(start := c.tail, tokens := c.tokens + TextTokens(c.fmt[c.start..c.tail])))
  {
    if c.start < c.tail {
      StepTextEnd(c);
      ScanStep(c);
      var c1 := c.(start := c.tail, tokens := c.tokens + TextTokens(c.fmt[c.start..c.tail]));
      StepFinished(c1);
      ScanStep(c1);
    } else {
      assert c.tokens + [] == c.tokens;
      StepFinished(c);
      ScanStep(c);
    }
  }

  /** The scan of a format up to offset k of plain text. */
  lemma ScanPrefix(f: string, k: nat)
    requires '\0' !in f && k <= |f| && Plain(f[..k])
    ensures Inv(Init(f).(tail := k))
    ensures Scanned(Init(f)) == Scanned(Init(f).(tail := k))
  {
    assert f[0..k] == f[..k];
    SkipPlain(Init(f), k);
  }

  /** Plain text is one string token, or none when empty. */
  lemma PlainTextLexes(s: string)
    requires Plain(s) && |s| < TextBufferMax
    ensures Lex(s) == LexResult(true, TextTokens(s))
  {
    assert s[..|s|] == s;
    ScanPrefix(s, |s|);
    EndOfText(Init(s).(tail := |s|));
    assert s[0..|s|] == s;
  }

  /** A '%' with nothing after it fails the scan. */
  lemma TrailingPercentFails(s: string)
    requires Plain(s)
    ensures '\0' !in s + "%" && !Lex(s + "%").success
  {
    var f := s + "%";
    assert f[..|s|] == s;
    if |f| < TextBufferMax {
      ScanPrefix(f, |s|);
      var c := Init(f).(tail := |s|);
      StepTrailingPercent(c);
      ScanStep(c);
    }
  }

  /** A backslash with nothing after it fails the scan. */
  lemma TrailingBackslashFails(s: string)
    requires Plain(s)
    ensures '\0' !in s + "\\" && !Lex(s + "\\").success
  {
    var f := s + "\\";
    assert f[..|s|] == s;
    if |f| < TextBufferMax {
      ScanPrefix(f, |s|);
      var c := Init(f).(tail := |s|);
      StepEscape(c);
      ScanStep(c);
    }
  }

  /** "%%" is a string token holding one '%'. */
  lemma DoublePercentLexes(s: string)
    requires Plain(s) && |s| + 2 < TextBufferMax
    ensures '\0' !in s + "%%"
    ensures Lex(s + "%%") == LexResult(true, TextTokens(s) + [Token(TokenString, "%")])
  {
    var f := s + "%%";
    assert f[..|s|] == s;
    ScanPrefix(f, |s|);
    var c := Init(f).(tail := |s|);
    StepDoublePercent(c);
    ScanStep(c);
    var c1 := Ctx(f, |s| + 2, |s| + 2, [StateString], TextTokens(s) + [Token(TokenString, "%")]);
    StepFinished(c1);
    ScanStep(c1);
  }

  /** A field char right at the end of the format: its token ends the scan. */
  lemma FieldCharEnds(c: Ctx)
    requires Inv(c) && c.stack == [StateString, StateAttr] && c.tail + 1 == |c.fmt|
    requires c.fmt[c.tail] in Attributes || c.fmt[c.tail] in DateAttributes
    ensures Scanned(c).0 == Finished
    ensures Scanned(c).1.tokens == c.tokens + [Token(FieldCharKind(c.fmt[c.tail]), [c.fmt[c.tail]])]
  {
    var ch := c.fmt[c.tail];
    if ch in DateAttributes {
      DateAttributeCharFacts(ch);
      StepDateAttribute(c);
      ScanStep(c);
      StepFinished(Stepped(c).1);
      ScanStep(Stepped(c).1);
    } else {
      StepAttribute(c);
      ScanStep(c);
      StepFinished(Stepped(c).1);
      ScanStep(Stepped(c).1);
    }
  }

  /** The step at a '%' that opens a field. */
  lemma OpenField(s: string, rest: string)
    requires Plain(s) && '\0' !in rest && rest != [] && rest[0] != '%'
    ensures '\0' !in s + "%" + rest
    ensures Inv(Ctx(s + "%" + rest, |s|, |s| + 1, [StateString, StateAttr], TextTokens(s)))
    ensures Scanned(Init(s + "%" + rest)) == Scanned(Ctx(s + "%" + rest, |s|, |s| + 1, [StateString, StateAttr], TextTokens(s)))
  {
    hide Stepped, Scanned;
    var f := s + "%" + rest;
    assert f[..|s|] == s;
    assert f[|s| + 1] == rest[0];
    ScanPrefix(f, |s|);
    var c := Init(f).(tail := |s|);
    StepOpenField(c);
    ScanStep(c);
    assert f[0..|s|] == s;
    assert [] + TextTokens(s) == TextTokens(s);
  }

  /** "%a" for an attribute char a is one attribute token, "%A" for a date attribute one date-attribute token. */
  lemma FieldCharLexes(s: string, ch: char)
    requires Plain(s) && (ch in Attributes || ch in DateAttributes) && |s| + 2 < TextBufferMax
    ensures '\0' !in s + ['%', ch]
    ensures Lex(s + ['%', ch]) == LexResult(true, TextTokens(s) + [Token(FieldCharKind(ch), [ch])])
  {
    assert s + ['%', ch] == s + "%" + [ch];
    if ch in Attributes { AttributeCharFacts(ch); } else { DateAttributeCharFacts(ch); }
    OpenField(s, [ch]);
    FieldCharEnds(Ctx(s + "%" + [ch], |s|, |s| + 1, [StateString, StateAttr], TextTokens(s)));
  }

  /** A flag char before the attribute char is a flag token. */
  lemma FlagFieldLexes(s: string, flag: char, ch: char)
    requires Plain(s) && flag in Flags && ch in Attributes && |s| + 3 < TextBufferMax
    ensures '\0' !in s + ['%', flag, ch]
    ensures Lex(s + ['%', flag, ch]) == LexResult(true, TextTokens(s) + [Token(TokenFlag, [flag]), Token(TokenAttribute, [ch])])
  {
    FlagCharFacts(flag);
    AttributeCharFacts(ch);
    var f := s + ['%', flag, ch];
    assert f == s + "%" + [flag, ch];
    OpenField(s, [flag, ch]);
    var c := Ctx(f, |s|, |s| + 1, [StateString, StateAttr], TextTokens(s));
    StepFlag(c);
    ScanStep(c);
    FieldCharEnds(Stepped(c).1);
  }

  /** The field steps of a width w: a number token, then the field state on the char after it. */
  lemma ScanWidth(c: Ctx, w: string)
    requires Inv(c) && c.stack == [StateString, StateAttr] && w != [] && Decimal.AllDigits(w) && w[0] != '0'
    requires c.tail + |w| <= |c.fmt| && c.fmt[c.tail..c.tail + |w|] == w && CharAt(c, c.tail + |w|) != '.'
    requires !Decimal.IsDigit(CharAt(c, c.tail + |w|))
    ensures Inv(Ctx(c.fmt, c.tail + |w|, c.tail + |w|, [StateString, StateAttr], c.tokens + [Token(TokenNumber, w)]))
    ensures Scanned(c) == Scanned(Ctx(c.fmt, c.tail + |w|, c.tail + |w|, [StateString, StateAttr], c.tokens + [Token(TokenNumber, w)]))
  {
    assert c.fmt[c.tail] == w[0];
    StepOpenWidth(c);
    ScanStep(c);
    var c1 := Ctx(c.fmt, c.tail, c.tail + 1, [StateString, StateAttr, StateWidth], c.tokens);
    assert c.fmt[c.tail + 1..c.tail + 1 + (|w| - 1)] == w[1..];
    SkipDigits(c1, |w| - 1);
    var c2 := c1.(tail := c.tail + |w|);
    StepNumberEnd(c2);
    ScanStep(c2);
  }

  /** A width: the digits are one number token, and the field goes on with the attribute char. */
  lemma WidthFieldLexes(s: string, w: string, ch: char)
    requires Plain(s) && w != [] && Decimal.AllDigits(w) && w[0] != '0' && ch in Attributes
    requires |s| + |w| + 2 < TextBufferMax
    ensures '\0' !in s + "%" + w + [ch]
    ensures Lex(s + "%" + w + [ch]) == LexResult(true, TextTokens(s) + [Token(TokenNumber, w), Token(TokenAttribute, [ch])])
  {
    hide Stepped, Scanned;
    AttributeCharFacts(ch);
    var f := s + "%" + w + [ch];
    assert f == s + "%" + (w + [ch]);
    assert (w + [ch])[0] == w[0];
    assert '\0' !in w by {
      forall k | 0 <= k < |w| ensures w[k] != '\0' {
      }
    }
    OpenField(s, w + [ch]);
    var c := Ctx(f, |s|, |s| + 1, [StateString, StateAttr], TextTokens(s));
    var e := |s| + 1 + |w|;
    assert f[|s| + 1..e] == w;
    assert f[e] == ch;
    ScanWidth(c, w);
    FieldCharEnds(Ctx(f, e, e, [StateString, StateAttr], TextTokens(s) + [Token(TokenNumber, w)]));
  }

  /** The field steps of "w.": the width digits, then the precision state after the dot. */
  lemma ScanToPrecision(c: Ctx, w: string)
    requires Inv(c) && c.stack == [StateString, StateAttr] && w != [] && Decimal.AllDigits(w) && w[0] != '0'
    requires c.tail + |w| < |c.fmt| && c.fmt[c.tail..c.tail + |w|] == w && c.fmt[c.tail + |w|] == '.'
    ensures Inv(Ctx(c.fmt, c.tail, c.tail + |w| + 1, [StateString, StateAttr, StateWidth, StatePrecision], c.tokens))
    ensures Scanned(c) == Scanned(Ctx(c.fmt, c.tail, c.tail + |w| + 1, [StateString, StateAttr, StateWidth, StatePrecision], c.tokens))
  {
    hide Stepped, Scanned;
    assert c.fmt[c.tail] == w[0];
    StepOpenWidth(c);
    ScanStep(c);
    var c1 := Ctx(c.fmt, c.tail, c.tail + 1, [StateString, StateAttr, StateWidth], c.tokens);
    assert c.fmt[c.tail + 1..c.tail + 1 + (|w| - 1)] == w[1..];
    SkipDigits(c1, |w| - 1);
    var d := c1.(tail := c.tail + |w|);
    StepDot(d);
    ScanStep(d);
  }

  /** The precision digits q, then the number token and the field state on the char after them. */
  lemma ScanPrecisionDigits(c: Ctx, q: string)
    requires Inv(c) && c.stack == [StateString, StateAttr, StateWidth, StatePrecision] && c.start < c.tail
    requires Decimal.AllDigits(q) && c.tail + |q| <= |c.fmt| && c.fmt[c.tail..c.tail + |q|] == q
    requires !Decimal.IsDigit(CharAt(c, c.tail + |q|))
    ensures Inv(Ctx(c.fmt, c.tail + |q|, c.tail + |q|, [StateString, StateAttr], c.tokens + [Token(TokenNumber, c.fmt[c.start..c.tail + |q|])]))
    ensures Scanned(c) == Scanned(Ctx(c.fmt, c.tail + |q|, c.tail + |q|, [StateString, StateAttr], c.tokens + [Token(TokenNumber, c.fmt[c.start..c.tail + |q|])]))
  {
    hide Stepped, Scanned;
    SkipDigits(c, |q|);
    var e := c.(tail := c.tail + |q|);
    StepNumberEnd(e);
    ScanStep(e);
  }

  /** The field steps of "w.q": one number token, then the field state on the char after it. */
  lemma ScanPrecision(c: Ctx, w: string, q: string)
    requires Inv(c) && c.stack == [StateString, StateAttr] && w != [] && Decimal.AllDigits(w) && w[0] != '0' && Decimal.AllDigits(q)
    requires c.tail + |w| + 1 + |q| <= |c.fmt| && c.fmt[c.tail..c.tail + |w| + 1 + |q|] == w + "." + q
    requires !Decimal.IsDigit(CharAt(c, c.tail + |w| + 1 + |q|))
    ensures Inv(Ctx(c.fmt, c.tail + |w| + 1 + |q|, c.tail + |w| + 1 + |q|, [StateString, StateAttr], c.tokens + [Token(TokenNumber, w + "." + q)]))
    ensures Scanned(c) == Scanned(Ctx(c.fmt, c.tail + |w| + 1 + |q|, c.tail + |w| + 1 + |q|, [StateString, StateAttr], c.tokens + [Token(TokenNumber, w + "." + q)]))
  {
    hide Stepped, Scanned, Inv;
    var f := c.fmt;
    var t := c.tail;
    var seg := f[t..t + |w| + 1 + |q|];
    assert seg[..|w|] == w && seg[|w|] == '.' && seg[|w| + 1..] == q;
    assert f[t..t + |w|] == seg[..|w|];
    assert f[t + |w| + 1..t + |w| + 1 + |q|] == seg[|w| + 1..];
    ScanToPrecision(c, w);
    ScanPrecisionDigits(Ctx(f, t, t + |w| + 1, [StateString, StateAttr, StateWidth, StatePrecision], c.tokens), q);
  }

  /** A width and precision: "w.q" is one number token. */
  lemma PrecisionFieldLexes(s: string, w: string, q: string, ch: char)
    requires Plain(s) && w != [] && Decimal.AllDigits(w) && w[0] != '0' && Decimal.AllDigits(q) && ch in Attributes
    requires |s| + |w| + |q| + 3 < TextBufferMax
    ensures '\0' !in s + "%" + w + "." + q + [ch]
    ensures Lex(s + "%" + w + "." + q + [ch]) == LexResult(true, TextTokens(s) + [Token(TokenNumber, w + "." + q), Token(TokenAttribute, [ch])])
  {
    hide Stepped, Scanned;
    AttributeCharFacts(ch);
    var f := s + "%" + w + "." + q + [ch];
    assert f == s + "%" + (w + "." + q + [ch]);
    assert (w + "." + q + [ch])[0] == w[0];
    assert w[0] in w;
    assert '\0' !in q by {
      forall k | 0 <= k < |q| ensures q[k] != '\0' {
      }
    }
    OpenField(s, w + "." + q + [ch]);
    var c := Ctx(f, |s|, |s| + 1, [StateString, StateAttr], TextTokens(s));
    var e := |s| + 2 + |w| + |q|;
    assert f[|s| + 1..e] == w + "." + q;
    assert f[e] == ch;
    ScanPrecision(c, w, q);
    FieldCharEnds(Ctx(f, e, e, [StateString, StateAttr], TextTokens(s) + [Token(TokenNumber, w + "." + q)]));
  }

  /** A width with no attribute char after it still ends the scan successfully, leaving a lone number token. */
  lemma DanglingWidthLexes(s: string, w: string)
    requires Plain(s) && w != [] && Decimal.AllDigits(w) && w[0] != '0' && |s| + |w| + 1 < TextBufferMax
    ensures '\0' !in s + "%" + w
    ensures Lex(s + "%" + w) == LexResult(true, TextTokens(s) + [Token(TokenNumber, w)])
  {
    var f := s + "%" + w;
    assert w[0] in w;
    OpenField(s, w);
    var c := Ctx(f, |s|, |s| + 1, [StateString, StateAttr], TextTokens(s));
    var e := |f|;
    assert f[|s| + 1..e] == w;
    ScanWidth(c, w);
    var c3 := Ctx(f, e, e, [StateString, StateAttr], TextTokens(s) + [Token(TokenNumber, w)]);
    StepFinished(c3);
    ScanStep(c3);
  }

  /** A date attribute followed by date and time field chars: those chars are one date-format token. */
  lemma DateFormatLexes(s: string, ch: char, d: string)
    requires Plain(s) && ch in DateAttributes && d != [] && DateChars(d) && |s| + |d| + 2 < TextBufferMax
    ensures '\0' !in s + ['%', ch] + d
    ensures Lex(s + ['%', ch] + d) == LexResult(true, TextTokens(s) + [Token(TokenDateAttribute, [ch]), Token(TokenDateFormat, d)])
  {
    hide Stepped, Scanned;
    DateAttributeCharFacts(ch);
    assert '\0' !in d by {
      forall k | 0 <= k < |d| ensures d[k] != '\0' {
        DateCharFacts(d[k]);
      }
    }
    var f := s + ['%', ch] + d;
    assert f == s + "%" + ([ch] + d);
    OpenField(s, [ch] + d);
    var c := Ctx(f, |s|, |s| + 1, [StateString, StateAttr], TextTokens(s));
    assert f[|s| + 1] == ch;
    StepDateAttribute(c);
    ScanStep(c);
    var toks := TextTokens(s) + [Token(TokenDateAttribute, [ch])];
    var c1 := Ctx(f, |s| + 2, |s| + 2, [StateString, StateDateAttr], toks);
    assert f[|s| + 2..|s| + 2 + |d|] == d;
    assert f[|s| + 2] == d[0];
    StepDateChar(c1);
    ScanStep(c1);
    var c2 := c1.(tail := |s| + 3);
    assert f[|s| + 3..|s| + 3 + (|d| - 1)] == d[1..];
    SkipDateChars(c2, |d| - 1);
    var e := |f|;
    assert f[|s| + 2..e] == d;
    StepDateEnd(c2.(tail := e));
    ScanStep(c2.(tail := e));
    var c3 := Ctx(f, e, e, [StateString], toks + [Token(TokenDateFormat, d)]);
    StepFinished(c3);
    ScanStep(c3);
  }

  /** The scan of "%{name" up to the closing '}': the field-name state with the name pending. */
  lemma ScanToBrace(s: string, n: string, rest: string)
    requires Plain(s) && NameChars(n) && '\0' !in rest
    ensures '\0' !in s + "%{" + n + "}" + rest
    ensures Inv(Ctx(s + "%{" + n + "}" + rest, |s| + 1, |s| + 2 + |n|, [StateString, StateAttr, StateFieldName], TextTokens(s)))
    ensures Scanned(Init(s + "%{" + n + "}" + rest))
         == Scanned(Ctx(s + "%{" + n + "}" + rest, |s| + 1, |s| + 2 + |n|, [StateString, StateAttr, StateFieldName], TextTokens(s)))
  {
    hide Stepped, Scanned;
    var f := s + "%{" + n + "}" + rest;
    assert f == s + "%" + ("{" + n + "}" + rest);
    assert '\0' !in n by {
      forall k | 0 <= k < |n| ensures n[k] != '\0' {
      }
    }
    OpenField(s, "{" + n + "}" + rest);
    var c := Ctx(f, |s|, |s| + 1, [StateString, StateAttr], TextTokens(s));
    assert f[|s| + 1] == '{';
    StepOpenName(c);
    ScanStep(c);
    var c1 := Ctx(f, |s| + 1, |s| + 2, [StateString, StateAttr, StateFieldName], TextTokens(s));
    assert f[|s| + 2..|s| + 2 + |n|] == n;
    SkipName(c1, |n|);
  }

  lemma FieldCharOfTable(i: nat)
    requires i < FormatFields.FieldCount
    ensures |FormatFields.FieldChars| == FormatFields.FieldCount
    ensures FormatFields.FieldChars[i] in Attributes || FormatFields.FieldChars[i] in DateAttributes
  {
    FormatFields.TableShape();
  }

  /** "%{name}" for a name of the table lexes exactly as "%c" for its field char. */
  lemma FieldNameLexes(s: string, i: nat)
    requires Plain(s) && i < FormatFields.FieldCount
    requires |s| + |FormatFields.FieldNames[i]| + 3 < TextBufferMax
    ensures FormatFields.FieldChars[i] in Attributes || FormatFields.FieldChars[i] in DateAttributes
    ensures '\0' !in s + "%{" + FormatFields.FieldNames[i] + "}"
    ensures Lex(s + "%{" + FormatFields.FieldNames[i] + "}") == Lex(s + ['%', FormatFields.FieldChars[i]])
    ensures Lex(s + ['%', FormatFields.FieldChars[i]])
         == LexResult(true, TextTokens(s) + [Token(FieldCharKind(FormatFields.FieldChars[i]), [FormatFields.FieldChars[i]])])
  {
    hide Stepped, Scanned;
    hide FormatFields.FieldNames, FormatFields.FieldChars, FormatFields.MapFieldName;
    FormatFields.TableShape();
    FormatFields.FieldNameChars(i);
    FieldCharOfTable(i);
    var n := FormatFields.FieldNames[i];
    var ch := FormatFields.FieldChars[i];
    assert NameChars(n);
    ScanToBrace(s, n, []);
    var f := s + "%{" + n + "}" + [];
    var b := |s| + 2 + |n|;
    var c := Ctx(f, |s| + 1, b, [StateString, StateAttr, StateFieldName], TextTokens(s));
    assert f[b] == '}';
    assert f[|s| + 2..b] == n;
    FormatFields.MapFieldNameOfTable(i);
    StepCloseName(c);
    ScanStep(c);
    var g := s + ['%', ch];
    assert f[..|s| + 1] + [ch] + f[b + 1..] == g;
    FieldCharEnds(Ctx(g, |s| + 1, |s| + 1, [StateString, StateAttr], TextTokens(s)));
    FieldCharLexes(s, ch);
    assert f == s + "%{" + n + "}";
  }

  /** "%{name}" for a name outside the table fails the scan, whatever follows. */
  lemma UnknownFieldNameFails(s: string, n: string, rest: string)
    requires Plain(s) && NameChars(n) && n !in FormatFields.FieldNames && '\0' !in rest
    ensures '\0' !in s + "%{" + n + "}" + rest
    ensures !Lex(s + "%{" + n + "}" + rest).success
  {
    hide FormatFields.FieldNames, FormatFields.MapFieldName;
    ScanToBrace(s, n, rest);
    var f := s + "%{" + n + "}" + rest;
    if |f| < TextBufferMax {
      var b := |s| + 2 + |n|;
      var c := Ctx(f, |s| + 1, b, [StateString, StateAttr, StateFieldName], TextTokens(s));
      assert f[b] == '}';
      assert f[|s| + 2..b] == n;
      StepCloseName(c);
      ScanStep(c);
    }
  }

  /** The escape "\x41" followed by text: an escape token, then a string token. */
  lemma HexEscapeLexes()
    ensures Lex("\\x41f") == LexResult(true, [Token(TokenEscapeSeq, "\\x41"), Token(TokenString, "f")])
  {
    var f := "\\x41f";
    var c := Init(f);
    hide Stepped, Scanned;
    assert EscapeLength(c) == 4;
    StepEscape(c);
    ScanStep(c);
    var c1 := Ctx(f, 4, 4, [StateString], [Token(TokenEscapeSeq, "\\x41")]);
    assert c.fmt[0..0] == [] && f[0..4] == "\\x41";
    assert c.tail == 0 && c.start == 0 && c.tokens == [] && c.fmt == f;
    assert TextTokens(c.fmt[c.start..c.tail]) == [];
    assert [] + TextTokens(c.fmt[c.start..c.tail]) + [Token(TokenEscapeSeq, c.fmt[c.tail..c.tail + 4])] == c1.tokens;
    assert Stepped(c) == (Continue, c1);
    StepPlainChar(c1);
    ScanStep(c1);
    EndOfText(c1.(tail := 5));
    assert f[4..5] == "f";
    assert Scanned(c) == Scanned(c1);
    assert Scanned(c1) == Scanned(c1.(tail := 5));
    assert TextTokens("f") == [Token(TokenString, "f")];
    assert Scanned(c) == (Finished, c1.(tail := 5, start := 5, tokens := c1.tokens + [Token(TokenString, "f")]));
  }

  /**
   * FormatLexerResult's context as an object: each method is one function of
   * format-lexer.c and updates the fields as that function does.
   */
  class Lexer {
    var fmt: string
    var start: nat
    var tail: nat
    var stack: seq<LexState>
    var tokens: seq<Token>

    function Snapshot(): Ctx
      reads this
    {
      Ctx(fmt, start, tail, stack, tokens)
    }

    /** _format_lexer_init on an accepted format, followed by the push of the string state. */
    constructor (format: string)
      ensures Snapshot() == Init(format)
    {
      fmt := format;
      start := 0;
      tail := 0;
      stack := [StateString];
      tokens := [];
    }

    /** *tail: the terminating NUL past the end. */
    function Current(): char
      reads this
    {
      if tail < |fmt| then fmt[tail] else '\0'
    }

    method Pop()
      requires stack != []
      modifies this
      ensures Snapshot() == Popped(old(Snapshot()))
    {
      stack := stack[..|stack| - 1];
      start := tail;
    }

    method Push(s: LexState, offset: nat)
      requires offset > 0
      modifies this
      ensures Snapshot() == Pushed(old(Snapshot()), s, offset)
    {
      stack := stack + [s];
      start := tail;
      tail := tail + offset;
    }

    method FoundToken(t: TokenType)
      requires Bounded(Snapshot()) && (IsTextToken(t) || IsCharToken(t))
      modifies this
      ensures Snapshot() == WithToken(old(Snapshot()), t)
    {
      if IsTextToken(t) {
        if start < tail && fmt[start] != '\0' {
          tokens := tokens + [Token(t, fmt[start..tail])];
        }
      } else {
        tokens := tokens + [Token(t, [Current()])];
      }
    }

    method StepDateAttr()
      requires Bounded(Snapshot()) && stack != []
      modifies this
      ensures Snapshot() == AfterDateAttr(old(Snapshot()))
    {
      var ch := Current();
      if ch != '\0' && (ch in DateFields || ch in TimeFields) {
        tail := tail + 1;
      } else {
        FoundToken(TokenDateFormat);
        Pop();
      }
    }

    method ProcessPrecision()
      requires Bounded(Snapshot()) && |stack| >= 2
      modifies this
      ensures Snapshot() == AfterPrecision(old(Snapshot()))
    {
      if Decimal.IsDigit(Current()) {
        tail := tail + 1;
      } else {
        FoundToken(TokenNumber);
        Pop();
        Pop();
      }
    }

    method ProcessWidth()
      requires Bounded(Snapshot()) && stack != []
      modifies this
      ensures Snapshot() == AfterWidth(old(Snapshot()))
    {
      var ch := Current();
      if Decimal.IsDigit(ch) {
        tail := tail + 1;
      } else if ch == '.' {
        stack := stack + [StatePrecision];
        tail := tail + 1;
      } else {
        FoundToken(TokenNumber);
        Pop();
      }
    }

    method SubstituteCurrentFieldChar() returns (success: bool)
      requires start < tail < |fmt| && stack != []
      modifies this
      ensures (success, Snapshot()) == AfterFieldNameEnd(old(Snapshot()))
    {
      hide FormatFields.MapFieldName;
      var field := FormatFields.MapFieldName(fmt[start + 1..tail]);
      if field != '\0' {
        fmt := fmt[..start] + [field] + fmt[tail + 1..];
        tail := start;
        Pop();
        success := true;
      } else {
        success := false;
      }
    }

    method StepFieldName() returns (success: bool)
      requires Bounded(Snapshot()) && start < tail && stack != []
      modifies this
      ensures (success, Snapshot()) == AfterFieldName(old(Snapshot()))
    {
      var ch := Current();
      if IsAlpha(ch) || ch == '-' {
        tail := tail + 1;
        success := true;
      } else if ch == '}' {
        success := SubstituteCurrentFieldChar();
      } else {
        success := false;
        Pop();
      }
    }

    method StepField() returns (success: bool)
      requires Bounded(Snapshot()) && stack != []
      modifies this
      ensures (success, Snapshot()) == AfterField(old(Snapshot()))
    {
      var ch := Current();
      success := true;
      if ch != '\0' && ch in Flags {
        FoundToken(TokenFlag);
        tail := tail + 1;
      } else if ch == '{' {
        Push(StateFieldName, 1);
      } else if ch != '\0' && ch in Attributes {
        FoundToken(TokenAttribute);
        tail := tail + 1;
        Pop();
      } else if ch != '\0' && ch in DateAttributes {
        FoundToken(TokenDateAttribute);
        Pop();
        Push(StateDateAttr, 1);
        start := start + 1;
      } else if ch != '\0' && Decimal.IsDigit(ch) && ch != '0' {
        Push(StateWidth, 1);
      } else {
        success := false;
      }
    }

    method ProcessPercentInString() returns (success: bool)
      requires Bounded(Snapshot()) && stack != []
      modifies this
      ensures (success, Snapshot()) == AfterPercent(old(Snapshot()))
    {
      if |fmt| - tail >= 2 {
        if fmt[tail + 1] == '%' {
          FoundToken(TokenString);
          start := tail + 1;
          tail := tail + 2;
          FoundToken(TokenString);
          start := start + 1;
        } else {
          FoundToken(TokenString);
          Push(StateAttr, 1);
        }
        success := true;
      } else {
        success := false;
      }
    }

    method ProcessBackslashInString() returns (success: bool)
      requires Bounded(Snapshot())
      modifies this
      ensures (success, Snapshot()) == AfterBackslash(old(Snapshot()))
    {
      var n := EscapeLength(Snapshot());
      FoundToken(TokenString);
      start := tail;
      if n > 0 {
        tail := tail + n;
        FoundToken(TokenEscapeSeq);
        start := tail;
        success := true;
      } else {
        success := false;
      }
    }

    method StepString() returns (success: bool)
      requires Bounded(Snapshot()) && stack != []
      modifies this
      ensures (success, Snapshot()) == AfterString(old(Snapshot()))
    {
      var ch := Current();
      success := true;
      if ch == '\0' {
        FoundToken(TokenString);
        start := tail;
      } else if ch == '%' {
        success := ProcessPercentInString();
      } else if ch == '\\' {
        success := ProcessBackslashInString();
      } else {
        tail := tail + 1;
      }
    }

    method Step() returns (r: StepResult)
      requires Inv(Snapshot())
      modifies this
      ensures (r, Snapshot()) == Stepped(old(Snapshot()))
    {
      if |fmt| - tail == 0 && start == tail {
        return Finished;
      }
      var top := stack[|stack| - 1];
      var success := true;
      if top == StateString {
        success := StepString();
      } else if top == StateAttr {
        success := StepField();
      } else if top == StateFieldName {
        success := StepFieldName();
      } else if top == StateWidth {
        ProcessWidth();
      } else if top == StatePrecision {
        ProcessPrecision();
      } else {
        StepDateAttr();
      }
      r := if success then Continue else Abort;
    }

    /** format_lexer_scan: refuse an overlong format, otherwise step until the scan stops. */
    static method Scan(format: string) returns (r: LexResult)
      requires '\0' !in format
      ensures r == Lex(format)
    {
      if |format| >= TextBufferMax {
        return LexResult(false, []);
      }
      var lexer := new Lexer(format);
      var status := Continue;
      while status == Continue
        invariant status == Continue ==> Inv(lexer.Snapshot()) && Scanned(lexer.Snapshot()) == Scanned(Init(format))
        invariant status != Continue ==> (status, lexer.Snapshot()) == Scanned(Init(format))
        decreases if status == Continue then Measure(lexer.Snapshot()) + 1 else 0
      {
        StepProgress(lexer.Snapshot());
        status := lexer.Step();
      }
      r := LexResult(status == Finished, lexer.tokens);
    }
  }
}
