/**
 * The smaller helpers of the query module: `buildDataQuery`, `renderLevelsFilter`
 * and `sanitizeStreamSelector`.
 */
module QueryMisc {
  import opened Filters
  import opened Text
  import opened Escaping

  // ---------------------------------------------------------------- buildDataQuery

  /** The plugin's identifier, sent as the supporting query type. */
  const PluginId: string := "grafana-lokiexplore-app"

  /** `defaultQueryParams`. */
  const DefaultQueryParams: map<string, string> :=
    map["refId" := "A", "queryType" := "range", "editorMode" := "code", "supportingQueryType" := PluginId]

  /** `buildDataQuery`: `{...defaultQueryParams, ...overrides, expr}`, a merge in which
      later sources win and the expression always wins. */
  function BuildDataQuery(expr: string, overrides: map<string, string>): (q: map<string, string>)
    ensures q.Keys == DefaultQueryParams.Keys + overrides.Keys + {"expr"}
    ensures "expr" in q && q["expr"] == expr
    ensures forall k :: k in overrides && k != "expr" ==> q[k] == overrides[k]
    ensures forall k :: k in DefaultQueryParams && k !in overrides && k != "expr" ==> q[k] == DefaultQueryParams[k]
  {
    DefaultQueryParams + overrides + map["expr" := expr]
  }

  // ---------------------------------------------------------------- renderLevelsFilter

  /** `renderLevelsFilter`: nothing exactly when there are no level filters; otherwise
      one regex stage on the level label, `| <label>=~` and a backtick literal. The
      literal lists exactly the filter values, in order, as long as no value contains
      `|` (which would split it) or a backtick (which would end the literal). */
  function LevelsFilterText(env: Env, fs: seq<Filter>): (r: string)
    ensures r == "" <==> fs == []
    ensures fs != [] ==>
      |r| >= |env.levelLabel| + 6 && r[..|env.levelLabel| + 5] == "| " + env.levelLabel + "=~`" &&
      r[|r| - 1] == '`'
    ensures fs != [] && (forall i :: 0 <= i < |fs| ==> '|' !in fs[i].value && '`' !in fs[i].value) ==>
      '`' !in r[|env.levelLabel| + 5..|r| - 1] && Split(r[|env.levelLabel| + 5..|r| - 1], '|') == Values(fs)
  {
    if |fs| > 0 then
      var body := Join(Values(fs), "|");
      var r := "| " + env.levelLabel + "=~`" + body + "`";
      assert r[|env.levelLabel| + 5..|r| - 1] == body;
      if forall i :: 0 <= i < |fs| ==> '|' !in fs[i].value && '`' !in fs[i].value then
        JoinAvoids(Values(fs), '`');
        SplitJoin(Values(fs), '|');
        r
      else r
    else ""
  }

  /** A join with `|` of parts that avoid a character other than `|` avoids it. */
  lemma {:induction false} JoinAvoids(parts: seq<string>, c: char)
    requires c != '|'
    requires forall i :: 0 <= i < |parts| ==> c !in parts[i]
    ensures c !in Join(parts, "|")
  {
    if |parts| > 1 {
      JoinAvoids(parts[1..], c);
    }
  }

  // ---------------------------------------------------------------- sanitizeStreamSelector

  /** The end of the longest run of white space (`\s*`) starting at `i`. */
  function WsRun(s: string, i: nat): (j: nat)
    requires i <= |s|
    ensures i <= j <= |s|
    ensures forall k :: i <= k < j ==> s[k] in Whitespace
    ensures j == |s| || s[j] !in Whitespace
    decreases |s| - i
  {
    if i < |s| && s[i] in Whitespace then WsRun(s, i + 1) else i
  }

  /** Where a match of `/\s*,\s*}/` starting at `i` ends, if there is one: the match
      is white space, a comma, white space and a closing brace. Neither `,` nor `}` is
      white space, so greedy matching with backtracking has only one candidate. */
  function MatchAt(s: string, i: nat): (m: Option<nat>)
    requires i <= |s|
    ensures m.Some? ==> i + 2 <= m.value <= |s| && s[m.value - 1] == '}'
    ensures m.Some? ==> exists c :: i <= c < m.value - 1 && s[c] == ',' &&
                          AllIn(s[i..c], Whitespace) && AllIn(s[c + 1..m.value - 1], Whitespace)
  {
    var j := WsRun(s, i);
    if j < |s| && s[j] == ',' then
      var k := WsRun(s, j + 1);
      if k < |s| && s[k] == '}' then
        assert AllIn(s[i..j], Whitespace) && AllIn(s[j + 1..k], Whitespace);
        Some(k + 1)
      else None
    else None
  }

  /** Replace the leftmost match at or after `i` by `}`; the text never grows. */
  function SanitizeFrom(s: string, i: nat): (r: string)
    requires i <= |s|
    ensures |r| <= |s|
    decreases |s| - i
  {
    match MatchAt(s, i)
    case Some(e) => s[..i] + "}" + s[e..]
    case None => if i == |s| then s else SanitizeFrom(s, i + 1)
  }

  /** Searching from `i` leaves the text unchanged or replaces one match starting at or
      after `i`. */
  lemma {:induction false} SanitizeFromShape(s: string, i: nat)
    requires i <= |s|
    ensures SanitizeFrom(s, i) == s || (exists m :: i <= m <= |s| && MatchAt(s, m).Some? &&
                                         SanitizeFrom(s, i) == s[..m] + "}" + s[MatchAt(s, m).value..])
    decreases |s| - i
  {
    if MatchAt(s, i).None? && i < |s| {
      SanitizeFromShape(s, i + 1);
    }
  }

  /** `sanitizeStreamSelector`: `expression.replace(/\s*,\s*}/, '}')`, which replaces the
      first match only. The selector never grows: it is unchanged, or one match of white
      space, comma, white space and `}` is replaced by `}`. */
  function SanitizeStreamSelector(s: string): (r: string)
    ensures |r| <= |s|
    ensures r == s || (exists m :: 0 <= m <= |s| && MatchAt(s, m).Some? &&
                        r == s[..m] + "}" + s[MatchAt(s, m).value..])
  {
    SanitizeFromShape(s, 0);
    SanitizeFrom(s, 0)
  }

  lemma {:induction false} SanitizeFromLeftmost(s: string, i: nat, m: nat)
    requires i <= m <= |s|
    requires MatchAt(s, m).Some?
    requires forall p :: i <= p < m ==> MatchAt(s, p).None?
    ensures SanitizeFrom(s, i) == s[..m] + "}" + s[MatchAt(s, m).value..]
    decreases m - i
  {
    if i < m {
      SanitizeFromLeftmost(s, i + 1, m);
    }
  }

  lemma {:induction false} SanitizeFromNone(s: string, i: nat)
    requires i <= |s|
    requires forall p :: i <= p <= |s| ==> MatchAt(s, p).None?
    ensures SanitizeFrom(s, i) == s
    decreases |s| - i
  {
    if i < |s| {
      SanitizeFromNone(s, i + 1);
    }
  }

  /** The selector is unchanged when nothing matches; otherwise the leftmost match,
      and only it, is replaced by `}`. */
  lemma SanitizeLeftmost(s: string, m: nat)
    requires m <= |s| && MatchAt(s, m).Some?
    requires forall p :: 0 <= p < m ==> MatchAt(s, p).None?
    ensures SanitizeStreamSelector(s) == s[..m] + "}" + s[MatchAt(s, m).value..]
  {
    SanitizeFromLeftmost(s, 0, m);
  }

  lemma SanitizeUnchanged(s: string)
    requires forall p :: 0 <= p <= |s| ==> MatchAt(s, p).None?
    ensures SanitizeStreamSelector(s) == s
  {
    SanitizeFromNone(s, 0);
  }

  /** A run of white space exactly covering `s[i..j]` and stopping at `j`. */
  lemma {:induction false} WsRunExact(s: string, i: nat, j: nat)
    requires i <= j <= |s|
    requires forall k :: i <= k < j ==> s[k] in Whitespace
    requires j == |s| || s[j] !in Whitespace
    ensures WsRun(s, i) == j
    decreases j - i
  {
    if i < j {
      WsRunExact(s, i + 1, j);
    }
  }

  /** A run starting inside `s[..n]` stops before `n` when `s[n - 1]` is not white
      space. */
  lemma WsRunInside(s: string, i: nat, n: nat)
    requires i < n <= |s| && s[n - 1] !in Whitespace
    ensures WsRun(s, i) < n
  {
  }

  /** No match starts inside a head that has no `}` and does not end in white space,
      when the head is followed by white space and a comma. */
  lemma NoMatchInHead(s: string, n: nat, c: nat)
    requires n <= c < |s| && s[c] == ','
    requires forall k :: n <= k < c ==> s[k] in Whitespace
    requires forall k :: 0 <= k < n ==> s[k] != '}'
    requires n == 0 || s[n - 1] !in Whitespace
    ensures forall p :: 0 <= p < n ==> MatchAt(s, p).None?
  {
    SeparatorSets();
    forall p | 0 <= p < n
      ensures MatchAt(s, p).None?
    {
      WsRunInside(s, p, n);
      var j := WsRun(s, p);
      if s[j] == ',' {
        if j + 1 < n {
          WsRunInside(s, j + 1, n);
        } else {
          WsRunExact(s, n, c);
        }
      }
    }
  }

  /** A match of white space, comma, white space and `}`. */
  lemma MatchHere(s: string, n: nat, c: nat, b: nat)
    requires n <= c < b < |s| && s[c] == ',' && s[b] == '}'
    requires forall k :: n <= k < c ==> s[k] in Whitespace
    requires forall k :: c < k < b ==> s[k] in Whitespace
    ensures MatchAt(s, n) == Some(b + 1)
  {
    SeparatorSets();
    WsRunExact(s, n, c);
    WsRunExact(s, c + 1, b);
  }

  /** The trailing comma of a selector, with any white space around it, is removed:
      `{a="1", b="2" , }` becomes `{a="1", b="2"}`. The head must not contain `}` or
      end in white space (true of a selector whose last matcher ends in a quote). */
  lemma SanitizeTrailingComma(a: string, w1: string, w2: string, rest: string)
    requires AllIn(w1, Whitespace) && AllIn(w2, Whitespace)
    requires '}' !in a && (a == [] || a[|a| - 1] !in Whitespace)
    ensures SanitizeStreamSelector(a + w1 + "," + w2 + "}" + rest) == a + "}" + rest
  {
    var s := a + w1 + "," + w2 + "}" + rest;
    var c := |a| + |w1|;
    var b := c + 1 + |w2|;
    assert s[..|a|] == a;
    assert s[|a|..c] == w1;
    assert s[c + 1..b] == w2;
    assert s[b + 1..] == rest;
    assert s[c] == ',' && s[b] == '}';
    assert forall k :: |a| <= k < c ==> s[k] == w1[k - |a|];
    assert forall k :: c < k < b ==> s[k] == w2[k - c - 1];
    assert forall k :: 0 <= k < |a| ==> s[k] == a[k];
    MatchHere(s, |a|, c, b);
    NoMatchInHead(s, |a|, c);
    SanitizeLeftmost(s, |a|);
  }
}
