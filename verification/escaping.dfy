/**
 * The two escapers the renderers apply to values placed inside a double-quoted
 * literal (`escapeLabelValueInExactSelector` and `escapeLabelValueInRegexSelector`
 * of the scenes library), and the grammar's reading of such a literal, which they
 * are proved against.
 */
module Escaping {

  datatype Option<T> = None | Some(value: T)

  /** Exact-selector escaping of one character: backslash, newline and double quote
      become two-character escapes; everything else, backticks included, is kept. */
  function EscapeChar(c: char): string
  {
    if c == '\\' then "\\\\"
    else if c == '\n' then "\\n"
    else if c == '"' then "\\\""
    else [c]
  }

  /** Exact-selector escaping of a value: the result never holds a raw newline and
      never starts with a double quote, and each character grows into at most two
      (`ExactEscapeRoundTrip` states how it reads back). */
  function ExactEscape(s: string): (r: string)
    ensures |s| <= |r| <= 2 * |s|
    ensures '\n' !in r
    ensures r == [] || r[0] != '"'
  {
    if s == [] then "" else EscapeChar(s[0]) + ExactEscape(s[1..])
  }

  /** How the query grammar reads the body of a double-quoted literal: `\\`, `\n` and
      `\"` are escapes, and a bare double quote, a raw newline or any other escape is
      not a well-formed body. */
  function Unescape(t: string): Option<string>
  {
    if t == [] then Some("")
    else if t[0] == '"' || t[0] == '\n' then None
    else if t[0] != '\\' then
      (match Unescape(t[1..]) case Some(rest) => Some([t[0]] + rest) case None => None)
    else if |t| < 2 then None
    else
      var c := if t[1] == '\\' then Some('\\') else if t[1] == 'n' then Some('\n')
               else if t[1] == '"' then Some('"') else None;
      match (c, Unescape(t[2..]))
      case (Some(ch), Some(rest)) => Some([ch] + rest)
      case _ => None
  }

  /** Exact-selector escaping is safe: the escaped text is a well-formed literal body
      (no bare quote or newline can end the literal early) that reads back as the
      original value. */
  lemma {:induction false} ExactEscapeRoundTrip(s: string)
    ensures Unescape(ExactEscape(s)) == Some(s)
  {
    if s != [] {
      ExactEscapeRoundTrip(s[1..]);
      var e := ExactEscape(s);
      assert e == EscapeChar(s[0]) + ExactEscape(s[1..]);
      if s[0] == '\\' || s[0] == '\n' || s[0] == '"' {
        assert e[2..] == ExactEscape(s[1..]);
      } else {
        assert e[1..] == ExactEscape(s[1..]);
      }
      assert [s[0]] + s[1..] == s;
    }
  }

  /** Regex-selector quoting: every metacharacter gets a backslash in front. */
  function RegexQuote(meta: set<char>, s: string): (q: string)
    ensures |s| <= |q| <= 2 * |s|
  {
    if s == [] then ""
    else (if s[0] in meta then ['\\', s[0]] else [s[0]]) + RegexQuote(meta, s[1..])
  }

  /** How a regular expression engine reads quoted text literally: a backslash makes
      the next character literal; a lone metacharacter is not literal text. Reading
      every backslash pair as the escaped character is right for the text
      `RegexQuote` produces, where a backslash only ever precedes a metacharacter;
      escapes such as `\d` that stand for a class are outside that image and are not
      modelled. */
  function RegexUnquote(meta: set<char>, t: string): Option<string>
  {
    if t == [] then Some("")
    else if t[0] == '\\' then
      if |t| < 2 then None
      else (match RegexUnquote(meta, t[2..]) case Some(rest) => Some([t[1]] + rest) case None => None)
    else if t[0] in meta then None
    else (match RegexUnquote(meta, t[1..]) case Some(rest) => Some([t[0]] + rest) case None => None)
  }

  /** Regex-selector quoting makes any value match literally, provided the backslash
      itself is among the metacharacters. */
  lemma {:induction false} RegexQuoteRoundTrip(meta: set<char>, s: string)
    requires '\\' in meta
    ensures RegexUnquote(meta, RegexQuote(meta, s)) == Some(s)
  {
    if s != [] {
      RegexQuoteRoundTrip(meta, s[1..]);
      var q := RegexQuote(meta, s);
      if s[0] in meta {
        assert q[2..] == RegexQuote(meta, s[1..]);
      } else {
        assert q[1..] == RegexQuote(meta, s[1..]);
      }
      assert [s[0]] + s[1..] == s;
    }
  }

  /** Regex-selector escaping: quote the metacharacters, then escape for the literal.
      Like exact escaping, the result holds no raw newline and does not start with a
      double quote; each character grows into at most four. */
  function RegexEscape(meta: set<char>, s: string): (r: string)
    ensures |s| <= |r| <= 4 * |s|
    ensures '\n' !in r
    ensures r == [] || r[0] != '"'
  {
    ExactEscape(RegexQuote(meta, s))
  }

  /** A regex-escaped value reads back, first as a literal body and then as a regular
      expression, as the original value. */
  lemma RegexEscapeRoundTrip(meta: set<char>, s: string)
    requires '\\' in meta
    ensures Unescape(RegexEscape(meta, s)) == Some(RegexQuote(meta, s))
    ensures RegexUnquote(meta, Unescape(RegexEscape(meta, s)).value) == Some(s)
  {
    ExactEscapeRoundTrip(RegexQuote(meta, s));
    RegexQuoteRoundTrip(meta, s);
  }
}
