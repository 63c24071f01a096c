/**
 * The query escaping of the TagLib example extension (examples/taglib.c):
 * a tag query is turned into a POSIX extended regular expression that
 * matches it literally, anchored for the *_equals callbacks and unanchored
 * for the *_matches ones. Compiling and running the expression (regcomp,
 * regexec) and reading the tags are not part of this model.
 */
module Taglib {
  import opened Wrappers

  /** The characters _regex_escape prefixes with a backslash. */
  const Specials: string := ".^$*+?()[{\\|"

  predicate IsSpecial(c: char)
  {
    c in Specials
  }

  /** How many characters of s are special. */
  function SpecialCount(s: string): (n: nat)
    ensures n <= |s|
  {
    if s == [] then 0 else (if IsSpecial(s[0]) then 1 else 0) + SpecialCount(s[1..])
  }

  /** One character as _regex_escape writes it. */
  function EscapeChar(c: char): (r: string)
  {
    if IsSpecial(c) then ['\\', c] else [c]
  }

  /** The escaped query: every special character prefixed with a backslash, all others copied. */
  function Escaped(s: string): (r: string)
    ensures |r| == |s| + SpecialCount(s)
  {
    if s == [] then [] else EscapeChar(s[0]) + Escaped(s[1..])
  }

  /**
   * How an extended regular expression made only of characters and escapes
   * reads as a literal string: an escaped special character stands for
   * itself, an ordinary character for itself, and an unescaped special
   * character or a stray backslash makes it something other than a literal.
   */
  function Literal(p: string): (r: Option<string>)
    decreases |p|
  {
    if p == [] then Some([])
    else if p[0] == '\\' then
      if |p| >= 2 && IsSpecial(p[1]) then
        match Literal(p[2..])
        case None => None
        case Some(rest) => Some([p[1]] + rest)
      else None
    else if IsSpecial(p[0]) then None
    else
      match Literal(p[1..])
      case None => None
      case Some(rest) => Some([p[0]] + rest)
  }

  lemma {:induction false} EscapedAppend(a: string, b: string)
    ensures Escaped(a + b) == Escaped(a) + Escaped(b)
    decreases |a|
  {
    if a == [] {
      assert a + b == b;
    } else {
      assert (a + b)[0] == a[0] && (a + b)[1..] == a[1..] + b;
      EscapedAppend(a[1..], b);
      assert Escaped(a + b) == EscapeChar(a[0]) + (Escaped(a[1..]) + Escaped(b));
    }
  }

  /** The escaped query reads back as exactly the query. */
  lemma {:induction false} EscapedIsLiteral(s: string)
    ensures Literal(Escaped(s)) == Some(s)
    decreases |s|
  {
    if s != [] {
      EscapedIsLiteral(s[1..]);
      var e := Escaped(s);
      if IsSpecial(s[0]) {
        assert e[0] == '\\' && e[1] == s[0] && e[2..] == Escaped(s[1..]);
      } else {
        assert s[0] != '\\';
        assert e[0] == s[0] && e[1..] == Escaped(s[1..]);
      }
      assert [s[0]] + s[1..] == s;
    }
  }

  /** And escaping is the only way to write a string as such a literal. */
  lemma {:induction false} LiteralIsEscaped(p: string, s: string)
    requires Literal(p) == Some(s)
    ensures p == Escaped(s)
    decreases |p|
  {
    if p != [] {
      if p[0] == '\\' {
        var rest := Literal(p[2..]).value;
        LiteralIsEscaped(p[2..], rest);
        assert s == [p[1]] + rest && s[1..] == rest;
        assert p == ['\\', p[1]] + p[2..];
      } else {
        var rest := Literal(p[1..]).value;
        LiteralIsEscaped(p[1..], rest);
        assert s == [p[0]] + rest && s[1..] == rest;
        assert p == [p[0]] + p[1..];
      }
    }
  }

  /** The closing ']' and '}' are copied without a backslash. */
  lemma {:induction false} ClosersCopied(s: string)
    requires forall i :: 0 <= i < |s| ==> s[i] == ']' || s[i] == '}'
    ensures Escaped(s) == s
    ensures SpecialCount(s) == 0
    decreases |s|
  {
    if s != [] {
      assert !IsSpecial(s[0]);
      ClosersCopied(s[1..]);
      assert [s[0]] + s[1..] == s;
    }
  }

  /** What _regex_escape yields for a query that may be NULL: NULL becomes "". */
  function EscapedQuery(query: Option<string>): (r: string)
  {
    match query
    case None => ""
    case Some(s) => Escaped(s)
  }

  /** The pattern _compare_tags matches: the escaped query between '^' and '$'. */
  function ComparePattern(query: Option<string>): (r: string)
  {
    "^" + EscapedQuery(query) + "$"
  }

  /** The pattern _match_tags searches for: the escaped query alone. */
  function MatchPattern(query: Option<string>): (r: string)
  {
    EscapedQuery(query)
  }

  /** The anchored pattern is '^', a literal spelling of the query, and '$'. */
  lemma ComparePatternAnchorsLiteral(q: string)
    ensures var p := ComparePattern(Some(q));
      |p| >= 2 && p[0] == '^' && p[|p| - 1] == '$' && Literal(p[1..|p| - 1]) == Some(q)
  {
    var p := ComparePattern(Some(q));
    assert p[1..|p| - 1] == Escaped(q);
    EscapedIsLiteral(q);
  }

  /** The unanchored pattern reads as the query; a NULL query gives the empty pattern. */
  lemma MatchPatternIsLiteral(query: Option<string>)
    ensures Literal(MatchPattern(query)) == Some(if query.Some? then query.value else "")
    ensures query.None? ==> ComparePattern(query) == "^$"
  {
    if query.Some? {
      EscapedIsLiteral(query.value);
    }
  }

  /** One character of the loop of _regex_escape: a backslash first when it is special. */
  method PutEscaped(dst: array<char>, ptr: nat, c: char) returns (next: nat)
    requires ptr + |EscapeChar(c)| <= dst.Length
    modifies dst
    ensures next == ptr + |EscapeChar(c)|
    ensures dst[..next] == old(dst[..ptr]) + EscapeChar(c)
    ensures dst[next..] == old(dst[next..])
  {
    if IsSpecial(c) {
      dst[ptr] := '\\';
      dst[ptr + 1] := c;
      next := ptr + 2;
    } else {
      dst[ptr] := c;
      next := ptr + 1;
    }
  }

  /**
   * _regex_escape: a NUL-terminated buffer of 2 * len + 1 characters (one
   * for a NULL query) holding the escaped query, written through an
   * advancing position; n is where the terminator went.
   */
  method RegexEscape(str: Option<string>) returns (dst: array<char>, n: nat)
    ensures fresh(dst) && n < dst.Length
    ensures str.Some? ==> dst.Length == 2 * |str.value| + 1
    ensures dst[..n] == EscapedQuery(str) && dst[n] == '\0'
  {
    if str.Some? {
      var s := str.value;
      var len := |s|;
      dst := new char[2 * len + 1];
      var ptr := 0;
      for i := 0 to len
        invariant ptr == i + SpecialCount(s[..i]) <= 2 * i
        invariant dst[..ptr] == Escaped(s[..i])
      {
        assert s[..i + 1] == s[..i] + [s[i]];
        EscapedAppend(s[..i], [s[i]]);
        assert Escaped([s[i]]) == EscapeChar(s[i]) + Escaped([]);
        ptr := PutEscaped(dst, ptr, s[i]);
      }
      assert s[..len] == s;
      dst[ptr] := '\0';
      n := ptr;
    } else {
      dst := new char[1];
      dst[0] := '\0';
      n := 0;
    }
  }
}
