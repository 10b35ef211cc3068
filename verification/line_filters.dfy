/**
 * The line-filter renderer: `escapeDoubleQuotedLineFilter`, `buildLogQlLineFilter`
 * and `renderLogQLLineFilter`.
 */
module LineFilters {
  import opened Filters
  import opened Text
  import opened Escaping

  /** The plain-text operators `|=` and `!=`, whose value is not a regular expression. */
  predicate IsTextMatch(op: Op)
  {
    op == LineContains || op == NotEqual
  }

  /** The negated operators `!=` and `!~`. */
  predicate IsNegated(op: Op)
  {
    op == NotEqual || op == RegexNotEqual
  }

  /** `escapeDoubleQuotedLineFilter`: a plain-text filter that is case-insensitive is
      turned into a regular expression, so its value is regex-escaped and reads back as
      a regular expression matching the value literally (given that the backslash is
      itself a metacharacter); every other filter is escaped for an exact literal and
      reads back as the value. */
  function EscapeLineValue(env: Env, f: LineFilter): (r: string)
    ensures !(IsTextMatch(f.op) && f.caseMode == CaseInsensitive) ==> Unescape(r) == Some(f.value)
    ensures IsTextMatch(f.op) && f.caseMode == CaseInsensitive && '\\' in env.regexMeta ==>
      Unescape(r) == Some(RegexQuote(env.regexMeta, f.value)) &&
      RegexUnquote(env.regexMeta, RegexQuote(env.regexMeta, f.value)) == Some(f.value)
  {
    if IsTextMatch(f.op) && f.caseMode == CaseInsensitive then
      var r := RegexEscape(env.regexMeta, f.value);
      if '\\' in env.regexMeta then
        RegexEscapeRoundTrip(env.regexMeta, f.value);
        r
      else r
    else
      ExactEscapeRoundTrip(f.value);
      ExactEscape(f.value)
  }

  /** `buildLogQlLineFilter`: the operator, a space and `value` in double quotes. A
      case-insensitive filter becomes a regex filter, `!~` when negated and `|~`
      otherwise, with the `(?i)` flag opening the quotes; a case-sensitive one keeps its
      own operator. The contract spells out that layout on purpose: the template is all
      the source promises; `LinePiece` states what the literal means. */
  function BuildLineFilter(f: LineFilter, value: string): (r: string)
    ensures f.caseMode == CaseInsensitive ==>
      |r| == |value| + 9 && r[..8] == (if IsNegated(f.op) then "!~" else "|~") + " \"(?i)" &&
      r[8..|r| - 1] == value && r[|r| - 1] == '"'
    ensures f.caseMode == CaseSensitive ==>
      |r| == |Symbol(f.op)| + |value| + 3 && r[..|Symbol(f.op)| + 2] == Symbol(f.op) + " \"" &&
      r[|Symbol(f.op)| + 2..|r| - 1] == value && r[|r| - 1] == '"'
  {
    if f.caseMode == CaseInsensitive then
      (if IsNegated(f.op) then Symbol(RegexNotEqual) else Symbol(LineRegex)) + " \"(?i)" + value + "\""
    else Symbol(f.op) + " \"" + value + "\""
  }

  /** The piece one filter renders as: nothing exactly when the value is empty. A
      case-sensitive filter renders with its own operator and a literal that reads back
      as the value. A case-insensitive one renders as a regex filter, negated exactly
      when the filter is, carrying the `(?i)` flag; its literal reads back as the value
      itself for a regex filter, and as a regular expression matching the value
      literally for a plain-text filter. */
  function LinePiece(env: Env, f: LineFilter): (p: string)
    ensures p == "" <==> f.value == ""
    ensures f.value != "" && f.caseMode == CaseSensitive ==>
      |p| >= |Symbol(f.op)| + 3 && p[..|Symbol(f.op)| + 2] == Symbol(f.op) + " \"" && p[|p| - 1] == '"' &&
      Unescape(p[|Symbol(f.op)| + 2..|p| - 1]) == Some(f.value)
    ensures f.value != "" && f.caseMode == CaseInsensitive ==>
      |p| >= 9 && p[..8] == (if IsNegated(f.op) then "!~" else "|~") + " \"(?i)" && p[|p| - 1] == '"' &&
      (!IsTextMatch(f.op) ==> Unescape(p[8..|p| - 1]) == Some(f.value)) &&
      (IsTextMatch(f.op) && '\\' in env.regexMeta ==>
        Unescape(p[8..|p| - 1]) == Some(RegexQuote(env.regexMeta, f.value)) &&
        RegexUnquote(env.regexMeta, RegexQuote(env.regexMeta, f.value)) == Some(f.value))
  {
    if f.value == "" then "" else BuildLineFilter(f, EscapeLineValue(env, f))
  }

  function LinePieces(env: Env, fs: seq<LineFilter>): (ps: seq<string>)
    ensures |ps| == |fs|
    ensures forall i :: 0 <= i < |fs| ==> ps[i] == LinePiece(env, fs[i])
  {
    seq(|fs|, i requires 0 <= i < |fs| => LinePiece(env, fs[i]))
  }

  /** `renderLogQLLineFilter` on a list already in the order `sortLineFilters` leaves:
      the pieces of the filters, in order, joined by single spaces. No filters give "",
      a single filter gives its piece, and filters whose values are all empty give
      nothing but the separating spaces, one fewer than there are filters
      (`LineFiltersAppend` states the join filter by filter). */
  function LineFiltersText(env: Env, fs: seq<LineFilter>): (r: string)
    ensures fs == [] ==> r == ""
    ensures |fs| == 1 ==> r == LinePiece(env, fs[0])
    ensures fs != [] && (forall i :: 0 <= i < |fs| ==> fs[i].value == "") ==>
      |r| == |fs| - 1 && AllIn(r, {' '})
  {
    var ps := LinePieces(env, fs);
    if fs != [] && forall i :: 0 <= i < |fs| ==> fs[i].value == "" then
      JoinOfEmpties(ps);
      Join(ps, " ")
    else Join(ps, " ")
  }

  /** Joining empty parts with a space leaves only the spaces between them. */
  lemma {:induction false} JoinOfEmpties(parts: seq<string>)
    requires parts != []
    requires forall i :: 0 <= i < |parts| ==> parts[i] == ""
    ensures |Join(parts, " ")| == |parts| - 1 && AllIn(Join(parts, " "), {' '})
  {
    if |parts| > 1 {
      JoinOfEmpties(parts[1..]);
    }
  }

  /** The first filter contributes its piece; every filter after the first adds one
      space and its piece, including a filter with an empty value, which adds the space
      and nothing else. */
  lemma LineFiltersAppend(env: Env, fs: seq<LineFilter>, f: LineFilter)
    ensures LineFiltersText(env, fs + [f]) ==
      if fs == [] then LinePiece(env, f) else LineFiltersText(env, fs) + " " + LinePiece(env, f)
  {
    assert LinePieces(env, fs + [f]) == LinePieces(env, fs) + [LinePiece(env, f)];
    JoinConcat(LinePieces(env, fs), [LinePiece(env, f)], " ");
  }
}
