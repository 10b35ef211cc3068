/**
 * The data the query compiler consumes: ad-hoc filters, line filters, detected
 * patterns, and the classification of operator symbols.
 */
module Filters {

  /** The operator symbols the compiler renders. Label, metadata and field filters use
      `=`, `!=`, `=~`, `!~` and the numeric comparisons; line filters use `|=`, `!=`,
      `|~` and `!~`, so the line operators "negative match" and "negative regex" are the
      same symbols as `NotEqual` and `RegexNotEqual`. */
  datatype Op =
    | Equal | NotEqual | RegexEqual | RegexNotEqual
    | Greater | GreaterOrEqual | Less | LessOrEqual
    | LineContains | LineRegex

  /** The text of an operator symbol; it is made of operator characters only. */
  function Symbol(op: Op): (s: string)
    ensures 1 <= |s| <= 2
    ensures forall i :: 0 <= i < |s| ==> s[i] in "=!~<>|"
  {
    match op
    case Equal => "="
    case NotEqual => "!="
    case RegexEqual => "=~"
    case RegexNotEqual => "!~"
    case Greater => ">"
    case GreaterOrEqual => ">="
    case Less => "<"
    case LessOrEqual => "<="
    case LineContains => "|="
    case LineRegex => "|~"
  }

  /** Distinct operators render as distinct symbols. */
  lemma SymbolInjective(a: Op, b: Op)
    requires Symbol(a) == Symbol(b)
    ensures a == b
  {
  }

  /** The key of a line filter says whether it matches case-sensitively. */
  datatype CaseMode = CaseSensitive | CaseInsensitive

  /** An ad-hoc filter. `valueLabels` is empty where the source has none. */
  datatype Filter = Filter(key: string, op: Op, value: string, valueLabels: seq<string>)

  /** The parser that produced a structured field. */
  datatype Parser = Logfmt | Json | StructuredMetadata | Mixed

  /** A structured-field value, already decoded from its JSON envelope. */
  datatype FieldValue = FieldValue(value: string, parser: Parser)

  /** A structured-field filter, its value already decoded. */
  datatype FieldFilter = FieldFilter(key: string, op: Op, value: FieldValue, valueLabels: seq<string>)
  {
    /** The filter with its value replaced by the decoded inner value, which is what
        every field renderer reads (`getValueFromFieldsFilter(filter).value`). */
    function Decoded(): Filter
    {
      Filter(key, op, value.value, valueLabels)
    }
  }

  /** A free-text filter on the log line: key = case mode, operator, user text. */
  datatype LineFilter = LineFilter(caseMode: CaseMode, op: Op, value: string)

  datatype PatternType = Include | Exclude

  /** A detected log-line pattern the user included or excluded. */
  datatype Pattern = Pattern(pattern: string, kind: PatternType)

  /**
   * Definitions the compiler uses from modules that are not part of this model:
   * the operator classification (`isOperatorInclusive`, `isOperatorExclusive`,
   * `isOperatorRegex`, `numericOperatorArray`), the empty-value sentinel
   * `EMPTY_VARIABLE_VALUE`, the level label `LEVEL_VARIABLE_VALUE`, and the set of
   * characters the regex-selector escaper backslash-prefixes. No relation between
   * the classes is assumed.
   */
  datatype Env = Env(
    inclusive: set<Op>,
    exclusive: set<Op>,
    regex: set<Op>,
    numeric: set<Op>,
    emptyMarker: string,
    regexMeta: set<char>,
    levelLabel: string)

  /** The values of a list of filters, in order. */
  function Values(fs: seq<Filter>): (vs: seq<string>)
    ensures |vs| == |fs|
    ensures forall i :: 0 <= i < |fs| ==> vs[i] == fs[i].value
  {
    seq(|fs|, i requires 0 <= i < |fs| => fs[i].value)
  }
}
