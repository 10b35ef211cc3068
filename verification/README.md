# LogQL query building of the Explore Logs app, in Dafny

This project models the part of the Grafana Explore Logs app that turns the user's
ad-hoc filters into LogQL text. It covers:

- the stream selector (`renderLogQLLabelFilters`, with `getLogQLLabelGroups`,
  `getLogQLLabelFilters`, `renderMetadata` and `renderRegexLabelFilter`);
- the structured-metadata and field pipeline stages (`renderLogQLMetadataFilters`,
  `renderLogQLFieldFilters`);
- the line filters (`renderLogQLLineFilter` with its escaper and builder);
- the pattern stages (`renderPatternFilters`);
- the levels stage (`renderLevelsFilter`);
- the merged label filters sent with a label-values request (`joinTagFilters`);
- the wildcard search helpers (`wrapWildcardSearch`, `unwrapWildcardSearch`);
- `sanitizeStreamSelector` and `buildDataQuery`;
- the pure steps of the value-suggestion providers: `tagValuesFilterAdHocFilters`,
  the removal of label values that are already selected, the favourites-first
  ordering, and the removal of detected-field values that are already in use.

Filters are values (`Filters.Filter`: key, operator, value, value labels). The
operator classes (inclusive, exclusive, regex, numeric), the empty-value sentinel,
the level label and the regex metacharacter set are defined outside the modelled
files. They are parameters here, collected in the record `Filters.Env`. The model
assumes nothing about them beyond what each lemma requires.

Each escaper is proved against a model of how the LogQL grammar reads a double-quoted
literal (`Escaping.Unescape`) and how a regex engine reads quoted text
(`Escaping.RegexUnquote`). The renderers are proved to produce the pieces the code
intends, in the intended order and with the intended separators.

The source loops (`for (const key in groups)`, `forEach`, the in-place `sort`) are
methods with loop invariants. Each one is proved equal to a specification function,
and the properties are proved about those functions.

Some behaviours of the program are easy to miss:

- A key with several exclusive label filters renders as one `key!~"a|b"` matcher
  (`query.ts:95-103`), not filter by filter.
- A line filter with an empty value renders as the empty string. That string still
  takes part in the `join(' ')`, so it leaves an extra space (`query.ts:209-218`).
- The detected-field value removal looks at every current filter, whatever its key
  (`TagValuesProviders.ts:99-107`).
- When positive and numeric field filters are present but no negative ones,
  `renderLogQLFieldFilters` leaves two spaces between the blocks
  (`query.ts:172`). `PipelineFilters.FieldFiltersJoined` states this exactly.

## Model

| member | source | states |
|---|---|---|
| Filters.Symbol | src/services/query.ts:224 | every operator is written as its one- or two-character LogQL symbol |
| Filters.SymbolInjective | src/services/query.ts:224 | distinct operators are written differently, so the rendered operator identifies the filter's operator |
| Escaping.ExactEscapeRoundTrip | src/services/query.ts:226 | exact-selector escaping gives a well-formed literal body that the grammar reads back as the original value, for every value |
| Escaping.RegexQuoteRoundTrip | src/services/query.ts:179 | regex quoting makes every value match literally when the backslash is a metacharacter |
| Escaping.ExactEscape | src/services/query.ts:226 | exact-selector escaping never produces a raw newline or a leading double quote, and at most doubles the length |
| Escaping.RegexEscape | src/services/query.ts:179 | regex-selector escaping never produces a raw newline or a leading double quote, and at most quadruples the length |
| Escaping.RegexEscapeRoundTrip | src/services/query.ts:179 | a regex-escaped value reads back first as the quoted regex and then as the original value |
| Grouping.OfClass | src/services/query.ts:74-75 | the filter by operator class keeps exactly the filters of that class, each as often as in the input, in input order |
| Grouping.WithKey | src/services/query.ts:77 | a bucket's contents are exactly the filters with that key, each as often as in the input, in input order |
| Grouping.GroupByKey | src/services/query.ts:77-78 | no filters give no buckets, and there are never more buckets than filters |
| Grouping.GroupByKeySpec | src/services/query.ts:77-78 | groupBy gives one bucket per key present and no key twice; each bucket holds exactly its key's filters in input order and is never empty; buckets follow the order of first appearance |
| Grouping.GroupByKeyDistinct | src/services/query.ts:77-78 | no key has two buckets |
| Grouping.GroupByKeyCovers | src/services/query.ts:77-78 | every filter lands in the bucket of its key |
| Grouping.LabelGroups | src/services/query.ts:73-80 | both bucket lists have distinct keys and no empty bucket, and every bucket holds only filters of its class carrying its key |
| Grouping.LabelGroupsSpec | src/services/query.ts:73-80 | every inclusive filter is in its key's positive bucket and every exclusive filter in its key's negative bucket |
| LabelFilters.RenderMetadata | src/services/query.ts:221-227 | a rendered comparison is the key and the operator symbol, followed by the sentinel unquoted, or by a quoted literal that reads back as the value |
| LabelFilters.RenderRegexLabelFilter | src/services/query.ts:247-249 | the key and the operator, then one quoted literal that splits back at pipe characters into the values, in order |
| LabelFilters.RenderMetadataEdges | src/services/query.ts:221-227 | a rendered comparison ends with a quote or the sentinel, and starts with its key, which the separator trim relies on |
| LabelFilters.RenderPieces | src/services/query.ts:86-93 | one loop renders every bucket in bucket order: a single filter with its own operator, several as one alternation |
| LabelFilters.GetLabelFilters | src/services/query.ts:82-106 | positive pieces come from the inclusive buckets under `=~`, negative pieces from the exclusive buckets under `!~` |
| LabelFilters.RenderLabelFilters | src/services/query.ts:108-113 | the selector is both joins around `", "`, trimmed of spaces and commas |
| LabelFilters.LabelPieceForKey | src/services/query.ts:86-103 | piece i belongs to the i-th distinct key; one filter renders as itself, several as `key<op>"..."` holding the values in input order, unescaped and separated by pipe characters |
| LabelFilters.GroupPieceClean | src/services/query.ts:221-227 | a piece is non-empty and neither starts nor ends with a space or comma |
| LabelFilters.TrimJoinedSides | src/services/query.ts:110 | the trim only removes the separator that an empty side leaves behind |
| LabelFilters.LabelFiltersJoined | src/services/query.ts:108-113 | the selector is every positive piece, then every negative piece, separated by `", "` |
| LabelFilters.LabelFiltersEmpty | src/services/query.ts:108-113 | with no inclusive or exclusive filter (an empty list in particular) the selector is empty |
| PipelineFilters.PositiveFilters | src/services/query.ts:142-145 | the loop appends a space, a pipe, a space and the or-clause for every positive bucket, in bucket order |
| PipelineFilters.RenderMetadataFilters | src/services/query.ts:136-150 | the metadata renderer returns the trimmed positive and negative blocks |
| PipelineFilters.RenderFieldFilters | src/services/query.ts:152-173 | the field renderer returns the trimmed positive, negative and numeric blocks of the decoded filters |
| PipelineFilters.PositiveBlockJoin | src/services/query.ts:142-145 | the `+=` loop yields a leading space, then the pipe-prefixed or-clause stages joined by spaces |
| PipelineFilters.PositiveStagesSnoc | src/services/query.ts:143-145 | adding a bucket appends its stage |
| PipelineFilters.TrimTwoBlocks | src/services/query.ts:149 | trimming the two blocks gives all stages separated by single spaces |
| PipelineFilters.TrimThreeBlocks | src/services/query.ts:172 | trimming three blocks gives single spaces between stages, except for the double space when the middle block alone is empty |
| PipelineFilters.MetadataFiltersJoined | src/services/query.ts:136-150 | the metadata stages are one pipe-prefixed or-clause per positive key, then one pipe-prefixed comparison per negative filter, separated by single spaces |
| PipelineFilters.FieldFiltersJoined | src/services/query.ts:152-173 | the field stages are positive, then negative, then numeric, separated by single spaces, with two spaces when only the negative block is empty |
| PipelineFilters.NumericComparison | src/services/query.ts:239-245 | a numeric comparison is the key and the operator followed by the decoded value verbatim, neither quoted nor escaped |
| PipelineFilters.DecodedNumericTidy | src/services/query.ts:239-245 | numeric stages whose decoded values do not end in white space are clean stages |
| LineFilters.EscapeLineValue | src/services/query.ts:175-186 | a case-insensitive plain-text value is regex-escaped and matches literally; every other value is exact-escaped and reads back as itself |
| LineFilters.BuildLineFilter | src/services/query.ts:188-198 | a case-insensitive filter becomes the negated regex operator when negated and the regex line operator otherwise, with `(?i)` opening the quotes; a case-sensitive one keeps its operator; the escaped value sits between the quotes |
| LineFilters.LinePiece | src/services/query.ts:207-219 | a filter renders as nothing exactly when its value is empty; otherwise as its operator (or the regex operator with `(?i)`) and a literal that reads back as the value, or as a regex matching the value literally |
| LineFilters.LineFiltersText | src/services/query.ts:207-219 | the pieces of the filters, in the given order, joined by single spaces: no filters give an empty text, one filter gives its piece, and filters whose values are all empty give only the separating spaces, one fewer than the filters |
| LineFilters.LineFiltersAppend | src/services/query.ts:207-219 | the first filter gives its piece, and every filter after the first adds one space and its piece; an empty value adds only the space |
| PatternFilters.OfKind | src/services/query.ts:252-258 | the filter by pattern type keeps exactly the patterns of that type, each as often as in the input, in order |
| PatternFilters.QuotedMeaning | src/services/query.ts:262-266 | a quoted pattern is a literal that reads back as the pattern |
| PatternFilters.IncludeLineForm | src/services/query.ts:259-268 | the single-include branch agrees with the general form: the include operator, then the quoted patterns joined by ` or ` |
| PatternFilters.ExcludeLineJoined | src/services/query.ts:253-256 | the exclude stages joined by a space are left alone by the trim |
| PatternFilters.IncludeLineClean | src/services/query.ts:259-268 | a non-empty include stage neither starts nor ends with white space |
| PatternFilters.PatternFiltersText | src/services/query.ts:251-270 | the text is the `!> "p"` stages in input order, then the include stage if there is one, separated by single spaces; it is empty exactly when there are no patterns |
| TagFilters.PushJoined | src/services/query.ts:276-291 | the loop appends one merged filter per bucket, in bucket order |
| TagFilters.JoinTagFilters | src/services/query.ts:272-311 | the result is the merged positive buckets, then the merged negative buckets |
| TagFilters.JoinGroup | src/services/query.ts:277-290 | a merged filter carries its bucket's key and no labels; a lone filter keeps its operator and value; several get the class operator, and their pipe-joined value splits back into the values |
| TagFilters.JoinGroupsKeys | src/services/query.ts:276-291 | merged filters carry their buckets' keys, so distinct buckets give distinct keys |
| TagFilters.JoinedParts | src/services/query.ts:272-311 | two lists of buckets with distinct keys merge into the shape that `joinTagFilters` promises |
| TagFilters.JoinedTagFiltersSpec | src/services/query.ts:272-311 | one filter per distinct inclusive key, then one per distinct exclusive key, in first-appearance order, no key twice within either part |
| Wildcard.Wrap | src/services/query.ts:312-320 | the wrapped term starts with `(?i).*` or is `.+` |
| Wildcard.WrapCases | src/services/query.ts:312-320 | `.+` and terms already starting with the prefix are unchanged; any other term gains the prefix and the suffix |
| Wildcard.WrapIdempotent | src/services/query.ts:312-320 | wrapping twice equals wrapping once |
| Wildcard.Unwrap | src/services/query.ts:322-328 | a term with both the prefix and the suffix is the prefix, the result and the suffix, or becomes empty when too short to hold both; any other term is returned unchanged |
| Wildcard.UnwrapChanges | src/services/query.ts:322-328 | unwrapping changes a term exactly when it carries both the prefix and the suffix |
| Wildcard.UnwrapWrap | src/services/query.ts:312-328 | unwrap undoes wrap for every term not already starting with the prefix |
| Wildcard.WrapUnwrap | src/services/query.ts:312-328 | wrap undoes unwrap for a wrapped term whose inside is neither `.+` nor itself prefixed |
| QueryMisc.BuildDataQuery | src/services/query.ts:49-62 | the query has the default keys, the override keys and `expr`; `expr` always wins, overrides beat defaults, defaults fill the rest |
| QueryMisc.LevelsFilterText | src/services/query.ts:129-134 | the levels stage is empty exactly for no filters; otherwise it is a regex match on the level label whose backtick literal splits at pipe characters into exactly the values |
| QueryMisc.WsRun | src/services/query.ts:331 | `\s*` matches the longest run of white space |
| QueryMisc.MatchAt | src/services/query.ts:331 | a match of `\s*,\s*}` is white space, a comma, white space and a closing brace |
| QueryMisc.SanitizeFromShape | src/services/query.ts:331 | the search leaves the text alone or replaces one match at or after its start |
| QueryMisc.SanitizeStreamSelector | src/services/query.ts:330-332 | the selector never grows: it is unchanged or has one match replaced by `}` |
| QueryMisc.SanitizeLeftmost | src/services/query.ts:330-332 | only the leftmost match of `\s*,\s*}` is replaced by `}` |
| QueryMisc.SanitizeUnchanged | src/services/query.ts:330-332 | a selector with no match is unchanged |
| QueryMisc.NoMatchInHead | src/services/query.ts:331 | no match starts inside a head that has no `}` and does not end in white space |
| QueryMisc.MatchHere | src/services/query.ts:331 | white space, a comma, white space and `}` form a match |
| QueryMisc.SanitizeTrailingComma | src/services/query.ts:330-332 | a trailing comma and the white space around it are removed before `}`, and the rest is kept |
| TagValues.DropSuperseded | src/services/TagValuesProviders.ts:163-165 | the first filter step keeps exactly the filters that are not an `=` filter on the new inclusive filter's key, each as often as in the input, in order, and keeps everything for a non-inclusive new filter |
| TagValues.TagValuesFilterAdHocFilters | src/services/TagValuesProviders.ts:162-172 | the result is empty exactly when no inclusive filter survives the first step; otherwise it is that step's result, every survivor as often as in the input, in order |
| TagValues.TagValuesFilterNeverLonger | src/services/TagValuesProviders.ts:162-172 | the request filters are never more than the filters given |
| TagValues.Unselected | src/services/TagValuesProviders.ts:202-215 | a candidate is kept exactly when no filter on the key selects it (regex alternative or `=` value), as often as it is a candidate, in order |
| TagValues.FavouriteClass | src/services/TagValuesProviders.ts:222-224 | a value is in the class exactly when it is in the input and is (or is not) a favourite, and every element belongs to the class |
| TagValues.FavouriteClassCounts | src/services/TagValuesProviders.ts:222-224 | the class holds every value of the class as often as the input does and nothing else, in input order |
| TagValues.FavouriteClassSplit | src/services/TagValuesProviders.ts:222-224 | the two classes together are a permutation of the values |
| TagValues.FavouritesFirstSpec | src/services/TagValuesProviders.ts:220-225 | the favourites ordering is a permutation in which every favourite precedes every other value, stable within each class |
| TagValues.CollectByFavour | src/services/TagValuesProviders.ts:222-224 | one pass collects the favourites and the other values, each in order |
| TagValues.SortFavouritesFirst | src/services/TagValuesProviders.ts:222-224 | the array, sorted in place, becomes the favourites-first ordering of its old contents |
| TagValues.LabelValueSuggestions | src/services/TagValuesProviders.ts:201-228 | the suggestions are the unselected candidates, favourites first when there are favourites |
| TagValues.NoFavouritesNoChange | src/services/TagValuesProviders.ts:221 | skipping the sort without favourites is the same as ordering with none |
| TagValues.LabelValueSuggestionsSpec | src/services/TagValuesProviders.ts:201-225 | a value is suggested exactly when it is a candidate no filter on the key selects, and there are never more suggestions than candidates |
| TagValues.ValuesToRemove | src/services/TagValuesProviders.ts:99-107 | the removal list holds exactly what some current filter rules out: regex alternatives of the first value label (or value), else that text |
| TagValues.WithoutValues | src/services/TagValuesProviders.ts:109-111 | a candidate survives exactly when it is not on the removal list, as often as it is a candidate, in order |
| TagValues.DetectedFieldValues | src/services/TagValuesProviders.ts:89-159 | no values for a failed fetch; every result as text for the levels variable; otherwise the surviving values, each with a `{value, parser}` record unless the parser is structured metadata |
| TagValues.DetectedFieldFilterSpec | src/services/TagValuesProviders.ts:98-111 | a detected-field candidate is removed exactly when some current filter of any key rules it out; survivors keep their order and are never more than the candidates |
| Text.SplitJoin | src/services/query.ts:287 | splitting at a separator character a join of parts free of it gives back the parts |
| Text.JoinSplit | src/services/TagValuesProviders.ts:103 | joining the pieces of a split gives back the text |
| Text.TrimPadded | src/services/query.ts:110 | trimming removes exactly the padding of the given characters around a clean text |

## Left out

- `sortLineFilters` is not part of this model. `LineFilters.LineFiltersText` takes the line filters in the order it leaves them.
- JavaScript `for ... in` enumerates integer-like keys first, in numeric order. The model enumerates the buckets of `groupBy` in order of first appearance for every key.
- `getValueFromFieldsFilter` and the JSON encoding of field values are not part of this model. Field filters carry their already-decoded `{value, parser}` record (`Filters.FieldValue`).
- The scenes library's `escapeLabelValueInExactSelector` and `escapeLabelValueInRegexSelector` are not part of this model. They are modelled as `Escaping.ExactEscape` and `Escaping.RegexEscape`, with the metacharacter set as a parameter.
- `isOperatorInclusive`, `isOperatorExclusive`, `isOperatorRegex`, `numericOperatorArray`, `EMPTY_VARIABLE_VALUE` and `LEVEL_VARIABLE_VALUE` are not part of this model. They are fields of `Filters.Env`. `query.ts` takes `isOperatorInclusive` from `./operators` and `TagValuesProviders.ts` takes it from `./operatorHelpers`; the model has one `inclusive` set for both, so it assumes the two agree.
- The data-source lookup, the `await`ed requests, the logger calls and the thrown errors of the providers are I/O. The fetched results are a parameter, and a failed or non-array fetch is `None`.
- TagValues.LabelValueSuggestions: when `getTagValues` returns something that is not an array, the source passes it through unchanged; the model takes only the array case.
- `getFavoriteLabelValuesFromStorage` reads local storage. The favourites are a parameter.
- `MetricFindValue` fields other than `text` are not modelled; suggestions are their texts.
- `onAddCustomValue` is left out: it only builds a record around `JSON.stringify`.
- `buildResourceQuery` and `buildVolumeQuery` are left out: they are record spreads like `buildDataQuery`, over request types that are not part of this model.
- `LINE_LIMIT` is a constant used by callers only.
- Strings are sequences of Unicode scalar values, while JavaScript strings are UTF-16 code units: a lone surrogate cannot be represented, and lengths and offsets differ for characters outside the Basic Multilingual Plane (for example the length test in the too-short branch of `Wildcard.Unwrap`).
- TagValues.SortFavouritesFirst: computes the stable partition and writes it back, rather than running a comparison sort; the result is the one a stable sort with that comparator produces.
- LabelFilters.LabelFiltersJoined: stated for keys that do not start with a space or comma and a sentinel that does not end with one; other keys can lose characters to the trim.
- PipelineFilters.MetadataFiltersJoined: stated for a sentinel that does not end in white space.
- PipelineFilters.FieldFiltersJoined: stated also for numeric values that do not end in white space.
- QueryMisc.LevelsFilterText: the split-back property is stated for values without `|` or a backtick, which would split the alternation or end the literal.
- TagFilters.JoinGroup: the split-back property is stated for values without `|`.
- Escaping.RegexQuoteRoundTrip: stated for metacharacter sets that contain the backslash.
- LineFilters.LinePiece: the literal-match property of case-insensitive plain-text filters is stated for metacharacter sets that contain the backslash.
- LineFilters.EscapeLineValue: the literal-match property is stated for metacharacter sets that contain the backslash.
- LabelFilters.RenderRegexLabelFilter: the split-back property is stated for a non-empty list of values without `|`.
- QueryMisc.BuildDataQuery: the overrides are a map from strings to strings, so they cannot hold the non-string fields of a `LokiQuery` or a field explicitly set to `undefined`; in the source, `{refId: undefined}` as an override gives an undefined `refId` rather than `'A'`.
