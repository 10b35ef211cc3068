/**
 * The stream-selector renderer: `renderMetadata`, `renderRegexLabelFilter`,
 * `getLogQLLabelFilters` and `renderLogQLLabelFilters`.
 */
module LabelFilters {
  import opened Filters
  import opened Text
  import opened Escaping
  import opened Grouping

  /** The empty-value sentinel does not end with a character of `cs`. */
  predicate MarkerEndsOutside(env: Env, cs: set<char>)
  {
    env.emptyMarker == [] || env.emptyMarker[|env.emptyMarker| - 1] !in cs
  }

  /** `renderMetadata`: the key and the filter's own operator, followed by the
      empty-value sentinel unquoted, or by a double-quoted literal that the query
      grammar reads back as the value. */
  function RenderMetadata(env: Env, f: Filter): (r: string)
    ensures |r| >= |f.key| + |Symbol(f.op)|
    ensures r[..|f.key| + |Symbol(f.op)|] == f.key + Symbol(f.op)
    ensures f.value == env.emptyMarker ==> r[|f.key| + |Symbol(f.op)|..] == f.value
    ensures f.value != env.emptyMarker ==>
      |r| >= |f.key| + |Symbol(f.op)| + 2 && r[|f.key| + |Symbol(f.op)|] == '"' && r[|r| - 1] == '"' &&
      Unescape(r[|f.key| + |Symbol(f.op)| + 1..|r| - 1]) == Some(f.value)
  {
    if f.value == env.emptyMarker then f.key + Symbol(f.op) + f.value
    else
      var r := f.key + Symbol(f.op) + "\"" + ExactEscape(f.value) + "\"";
      assert r[|f.key| + |Symbol(f.op)| + 1..|r| - 1] == ExactEscape(f.value);
      ExactEscapeRoundTrip(f.value);
      r
  }

  /** The first and last characters of a rendered comparison, for the trimming done by
      the renderers that join comparisons. */
  lemma RenderMetadataEdges(env: Env, f: Filter, cs: set<char>)
    requires SeparatorSet(cs) && MarkerEndsOutside(env, cs)
    ensures EndsOutside(RenderMetadata(env, f), cs)
    ensures f.key == [] || f.key[0] !in cs ==> Clean(RenderMetadata(env, f), cs)
  {
    var s := Symbol(f.op);
    assert s[|s| - 1] in "=!~<>|";
    assert s[0] in "=!~<>|";
  }

  /** `renderRegexLabelFilter`: the key and `op`, then one double-quoted literal holding
      the values joined by `|`, not escaped; the literal splits back on `|` into the
      values, in order, as long as there is a value and none contains `|`. */
  function RenderRegexLabelFilter(key: string, values: seq<string>, op: Op): (r: string)
    ensures |r| >= |key| + |Symbol(op)| + 2
    ensures r[..|key| + |Symbol(op)| + 1] == key + Symbol(op) + "\"" && r[|r| - 1] == '"'
    ensures values != [] && (forall i :: 0 <= i < |values| ==> '|' !in values[i]) ==>
      Split(r[|key| + |Symbol(op)| + 1..|r| - 1], '|') == values
  {
    var r := key + Symbol(op) + "\"" + Join(values, "|") + "\"";
    assert r[|key| + |Symbol(op)| + 1..|r| - 1] == Join(values, "|");
    if values != [] && forall i :: 0 <= i < |values| ==> '|' !in values[i] then
      SplitJoin(values, '|');
      r
    else r
  }

  /** The piece one key's bucket renders as: the single filter as itself, several
      filters collapsed into one alternation under `op`. */
  function GroupPiece(env: Env, g: Group, op: Op): string
  {
    if |g.members| == 1 then RenderMetadata(env, g.members[0])
    else RenderRegexLabelFilter(g.key, Values(g.members), op)
  }

  function Pieces(env: Env, gs: seq<Group>, op: Op): (ps: seq<string>)
    ensures |ps| == |gs|
  {
    seq(|gs|, i requires 0 <= i < |gs| => GroupPiece(env, gs[i], op))
  }

  /** One loop of `getLogQLLabelFilters`: render every bucket, in bucket order. */
  method RenderPieces(env: Env, groups: seq<Group>, op: Op) returns (pieces: seq<string>)
    ensures pieces == Pieces(env, groups, op)
  {
    pieces := [];
    for i := 0 to |groups|
      invariant |pieces| == i
      invariant forall k :: 0 <= k < i ==> pieces[k] == GroupPiece(env, groups[k], op)
    {
      var piece := GroupPiece(env, groups[i], op);
      pieces := pieces + [piece];
    }
  }

  /** `getLogQLLabelFilters`: one piece per positive bucket, then one per negative
      bucket, each list in bucket order. */
  method GetLabelFilters(env: Env, fs: seq<Filter>) returns (positive: seq<string>, negative: seq<string>)
    ensures positive == Pieces(env, LabelGroups(env, fs).0, RegexEqual)
    ensures negative == Pieces(env, LabelGroups(env, fs).1, RegexNotEqual)
  {
    var groups := LabelGroups(env, fs);
    positive := RenderPieces(env, groups.0, RegexEqual);
    negative := RenderPieces(env, groups.1, RegexNotEqual);
  }

  /** The selector text `renderLogQLLabelFilters` returns. */
  function LabelFiltersText(env: Env, fs: seq<Filter>): string
  {
    var positive := Pieces(env, LabelGroups(env, fs).0, RegexEqual);
    var negative := Pieces(env, LabelGroups(env, fs).1, RegexNotEqual);
    Trim(Join(positive, ", ") + ", " + Join(negative, ", "), SpaceOrComma)
  }

  /** `renderLogQLLabelFilters`. */
  method RenderLabelFilters(env: Env, fs: seq<Filter>) returns (r: string)
    ensures r == LabelFiltersText(env, fs)
  {
    var positive, negative := GetLabelFilters(env, fs);
    r := Trim(Join(positive, ", ") + ", " + Join(negative, ", "), SpaceOrComma);
  }

  /** Piece `i` of a class belongs to the `i`-th distinct key of that class in order of
      first appearance. A key with one filter renders that filter with its own operator;
      a key with several renders `key<op>"v1|...|vn"`, the values in input order and not
      escaped. */
  lemma LabelPieceForKey(env: Env, fs: seq<Filter>, cls: set<Op>, op: Op, i: nat)
    requires i < |GroupByKey(OfClass(fs, cls))|
    ensures var k := GroupByKey(OfClass(fs, cls))[i].key;
      var ms := WithKey(OfClass(fs, cls), k);
      HasKey(OfClass(fs, cls), k) &&
      Pieces(env, GroupByKey(OfClass(fs, cls)), op)[i] ==
        if |ms| == 1 then RenderMetadata(env, ms[0])
        else k + Symbol(op) + "\"" + Join(Values(ms), "|") + "\""
  {
    GroupByKeySpec(OfClass(fs, cls));
  }

  /** Keys that never start with a space or a comma. */
  predicate KeysStartClean(fs: seq<Filter>)
  {
    forall f :: f in fs ==> f.key == [] || f.key[0] !in SpaceOrComma
  }

  lemma GroupPieceClean(env: Env, g: Group, op: Op)
    requires g.members != [] && g.members[0].key == g.key
    requires g.key == [] || g.key[0] !in SpaceOrComma
    requires MarkerEndsOutside(env, SpaceOrComma)
    ensures GroupPiece(env, g, op) != [] && Clean(GroupPiece(env, g, op), SpaceOrComma)
  {
    SeparatorSets();
    if |g.members| == 1 {
      RenderMetadataEdges(env, g.members[0], SpaceOrComma);
    } else {
      var r := RenderRegexLabelFilter(g.key, Values(g.members), op);
      var s := Symbol(op);
      assert s[0] in "=!~<>|";
      assert r[0] == (g.key + s)[0];
      assert r[|r| - 1] == '"';
    }
  }

  lemma PiecesClean(env: Env, fs: seq<Filter>, cls: set<Op>, op: Op)
    requires KeysStartClean(fs) && MarkerEndsOutside(env, SpaceOrComma)
    ensures forall i :: 0 <= i < |Pieces(env, GroupByKey(OfClass(fs, cls)), op)| ==>
      Pieces(env, GroupByKey(OfClass(fs, cls)), op)[i] != [] &&
      Clean(Pieces(env, GroupByKey(OfClass(fs, cls)), op)[i], SpaceOrComma)
  {
    var sub := OfClass(fs, cls);
    var gs := GroupByKey(sub);
    GroupByKeyMembers(sub);
    forall i | 0 <= i < |gs|
      ensures GroupPiece(env, gs[i], op) != [] && Clean(GroupPiece(env, gs[i], op), SpaceOrComma)
    {
      var m0 := gs[i].members[0];
      assert m0 in WithKey(sub, gs[i].key);
      GroupPieceClean(env, gs[i], op);
    }
  }

  /** Trimming `", "` and spaces off the two joined sides leaves one join of both sides
      when every piece is non-empty and clean. */
  lemma TrimJoinedSides(a: seq<string>, b: seq<string>)
    requires forall i :: 0 <= i < |a| ==> a[i] != [] && Clean(a[i], SpaceOrComma)
    requires forall i :: 0 <= i < |b| ==> b[i] != [] && Clean(b[i], SpaceOrComma)
    ensures Trim(Join(a, ", ") + ", " + Join(b, ", "), SpaceOrComma) == Join(a + b, ", ")
  {
    JoinClean(a, ", ", SpaceOrComma);
    JoinClean(b, ", ", SpaceOrComma);
    JoinConcat(a, b, ", ");
    var ja, jb := Join(a, ", "), Join(b, ", ");
    if a == [] && b == [] {
      TrimPadded(", ", "", "", SpaceOrComma);
      assert ja + ", " + jb == ", " + "" + "";
    } else if a == [] {
      TrimPadded(", ", jb, "", SpaceOrComma);
      assert ja + ", " + jb == ", " + jb + "";
    } else if b == [] {
      TrimPadded("", ja, ", ", SpaceOrComma);
      assert ja + ", " + jb == "" + ja + ", ";
    } else {
      JoinEnds(a, ", ");
      JoinEnds(b, ", ");
      TrimPadded("", ja + ", " + jb, "", SpaceOrComma);
      assert ja + ", " + jb == "" + (ja + ", " + jb) + "";
    }
  }

  /** With keys that do not start with a space or comma (and a sentinel that does not
      end with one), the selector is every positive piece, then every negative piece,
      separated by `", "`: the trim removes only the separator left by an empty side. */
  lemma LabelFiltersJoined(env: Env, fs: seq<Filter>)
    requires KeysStartClean(fs) && MarkerEndsOutside(env, SpaceOrComma)
    ensures LabelFiltersText(env, fs) ==
      Join(Pieces(env, LabelGroups(env, fs).0, RegexEqual) + Pieces(env, LabelGroups(env, fs).1, RegexNotEqual), ", ")
  {
    PiecesClean(env, fs, env.inclusive, RegexEqual);
    PiecesClean(env, fs, env.exclusive, RegexNotEqual);
    assert LabelGroups(env, fs).0 == GroupByKey(OfClass(fs, env.inclusive));
    assert LabelGroups(env, fs).1 == GroupByKey(OfClass(fs, env.exclusive));
    TrimJoinedSides(Pieces(env, LabelGroups(env, fs).0, RegexEqual), Pieces(env, LabelGroups(env, fs).1, RegexNotEqual));
  }

  /** Without inclusive or exclusive filters (in particular for an empty list) the
      selector is empty. */
  lemma LabelFiltersEmpty(env: Env, fs: seq<Filter>)
    requires forall i :: 0 <= i < |fs| ==> fs[i].op !in env.inclusive && fs[i].op !in env.exclusive
    ensures LabelFiltersText(env, fs) == ""
  {
    OfClassNone(fs, env.inclusive);
    OfClassNone(fs, env.exclusive);
    TrimPadded(", ", "", "", SpaceOrComma);
    assert "" + ", " + "" == ", " + "" + "";
  }

  lemma OfClassNone(fs: seq<Filter>, ops: set<Op>)
    requires forall i :: 0 <= i < |fs| ==> fs[i].op !in ops
    ensures OfClass(fs, ops) == []
  {
  }
}
