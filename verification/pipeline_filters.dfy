/**
 * The pipeline-stage renderers: `renderLogQLMetadataFilters` (structured metadata)
 * and `renderLogQLFieldFilters` (parsed fields, including numeric comparisons).
 * Positive filters become one ` | a or b` stage per key; negative and numeric filters
 * one `| x` stage each.
 */
module PipelineFilters {
  import opened Filters
  import opened Text
  import opened Grouping
  import opened LabelFilters

  /** `renderMetadata` applied to every filter of a list. */
  function Rendered(env: Env, fs: seq<Filter>): (rs: seq<string>)
    ensures |rs| == |fs|
    ensures forall i :: 0 <= i < |fs| ==> rs[i] == RenderMetadata(env, fs[i])
  {
    seq(|fs|, i requires 0 <= i < |fs| => RenderMetadata(env, fs[i]))
  }

  /** Every piece prefixed with `"| "`, making it a pipeline stage. */
  function Piped(ss: seq<string>): (ps: seq<string>)
    ensures |ps| == |ss|
    ensures forall i :: 0 <= i < |ss| ==> ps[i] == "| " + ss[i]
  {
    seq(|ss|, i requires 0 <= i < |ss| => "| " + ss[i])
  }

  /** The members of one positive bucket, alternatives of a single stage. */
  function OrClause(env: Env, g: Group): string
  {
    Join(Rendered(env, g.members), " or ")
  }

  /** The positive stages as `+=` builds them: `" | " + clause` per bucket. */
  function PositiveBlock(env: Env, gs: seq<Group>): string
  {
    if gs == [] then ""
    else PositiveBlock(env, gs[..|gs| - 1]) + " | " + OrClause(env, gs[|gs| - 1])
  }

  /** The positive stages one by one. */
  function PositiveStages(env: Env, gs: seq<Group>): (ps: seq<string>)
    ensures |ps| == |gs|
    ensures forall i :: 0 <= i < |gs| ==> ps[i] == "| " + OrClause(env, gs[i])
  {
    seq(|gs|, i requires 0 <= i < |gs| => "| " + OrClause(env, gs[i]))
  }

  /** The negative stages joined by a space. */
  function NegativeBlock(env: Env, fs: seq<Filter>): string
  {
    Join(Piped(Rendered(env, fs)), " ")
  }

  /** `fieldNumericFilterToQueryString`: the key and the operator, then the decoded value
      verbatim, never quoted or escaped (unlike `RenderMetadata`). The contract spells
      out that layout on purpose: the template is all the source promises. */
  function NumericComparison(f: Filter): (r: string)
    ensures |r| == |f.key| + |Symbol(f.op)| + |f.value|
    ensures r[..|f.key| + |Symbol(f.op)|] == f.key + Symbol(f.op)
    ensures r[|f.key| + |Symbol(f.op)|..] == f.value
  {
    f.key + Symbol(f.op) + f.value
  }

  function NumericStages(fs: seq<Filter>): (ps: seq<string>)
    ensures |ps| == |fs|
    ensures forall i :: 0 <= i < |fs| ==> ps[i] == "| " + NumericComparison(fs[i])
  {
    seq(|fs|, i requires 0 <= i < |fs| => "| " + NumericComparison(fs[i]))
  }

  /** Every field filter with its value decoded (`getValueFromFieldsFilter`). */
  function DecodedAll(ffs: seq<FieldFilter>): (ds: seq<Filter>)
    ensures |ds| == |ffs|
    ensures forall i :: 0 <= i < |ffs| ==> ds[i] == ffs[i].Decoded()
  {
    seq(|ffs|, i requires 0 <= i < |ffs| => ffs[i].Decoded())
  }

  /** The text `renderLogQLMetadataFilters` returns. */
  function MetadataFiltersText(env: Env, fs: seq<Filter>): string
  {
    Trim(PositiveBlock(env, GroupByKey(OfClass(fs, env.inclusive))) + " "
         + NegativeBlock(env, OfClass(fs, env.exclusive)), Whitespace)
  }

  /** The text `renderLogQLFieldFilters` returns. `fieldFilterToQueryString` is
      `renderMetadata` of the filter with its decoded value, so the positive and
      negative stages are those of the decoded filters. */
  function FieldFiltersText(env: Env, ffs: seq<FieldFilter>): string
  {
    var ds := DecodedAll(ffs);
    Trim(PositiveBlock(env, GroupByKey(OfClass(ds, env.inclusive))) + " "
         + NegativeBlock(env, OfClass(ds, env.exclusive)) + " "
         + Join(NumericStages(OfClass(ds, env.numeric)), " "), Whitespace)
  }

  /** The `for (const key in positiveGroups)` loop shared by both renderers. */
  method PositiveFilters(env: Env, groups: seq<Group>) returns (s: string)
    ensures s == PositiveBlock(env, groups)
  {
    s := "";
    for i := 0 to |groups|
      invariant s == PositiveBlock(env, groups[..i])
    {
      assert groups[..i + 1][..i] == groups[..i];
      s := s + " | " + Join(Rendered(env, groups[i].members), " or ");
    }
    assert groups[..|groups|] == groups;
  }

  /** `renderLogQLMetadataFilters`. */
  method RenderMetadataFilters(env: Env, fs: seq<Filter>) returns (r: string)
    ensures r == MetadataFiltersText(env, fs)
  {
    var positive := OfClass(fs, env.inclusive);
    var negative := OfClass(fs, env.exclusive);
    var positiveFilters := PositiveFilters(env, GroupByKey(positive));
    var negativeFilters := Join(Piped(Rendered(env, negative)), " ");
    r := Trim(positiveFilters + " " + negativeFilters, Whitespace);
  }

  /** `renderLogQLFieldFilters`. */
  method RenderFieldFilters(env: Env, ffs: seq<FieldFilter>) returns (r: string)
    ensures r == FieldFiltersText(env, ffs)
  {
    var ds := DecodedAll(ffs);
    var positive := OfClass(ds, env.inclusive);
    var negative := OfClass(ds, env.exclusive);
    var numeric := OfClass(ds, env.numeric);
    var positiveFilters := PositiveFilters(env, GroupByKey(positive));
    var negativeFilters := Join(Piped(Rendered(env, negative)), " ");
    var numericFilters := Join(NumericStages(numeric), " ");
    r := Trim(positiveFilters + " " + negativeFilters + " " + numericFilters, Whitespace);
  }

  // ---------------------------------------------------------------- shape of the output

  /** The positive block is a leading space followed by the positive stages joined by
      a space. */
  lemma {:induction false} PositiveBlockJoin(env: Env, gs: seq<Group>)
    ensures PositiveBlock(env, gs) == if gs == [] then "" else " " + Join(PositiveStages(env, gs), " ")
  {
    if gs != [] {
      var init := gs[..|gs| - 1];
      PositiveBlockJoin(env, init);
      PositiveStagesSnoc(env, gs);
      LeadSnoc(PositiveStages(env, init), OrClause(env, gs[|gs| - 1]));
    }
  }

  /** One more `" | " + clause` after a block of stages that is empty or has a leading
      space. */
  lemma LeadSnoc(pre: seq<string>, c: string)
    ensures (if pre == [] then "" else " " + Join(pre, " ")) + " | " + c == " " + Join(pre + ["| " + c], " ")
  {
    JoinConcat(pre, ["| " + c], " ");
    if pre == [] {
      assert pre + ["| " + c] == ["| " + c];
    }
  }

  lemma PositiveStagesSnoc(env: Env, gs: seq<Group>)
    requires gs != []
    ensures PositiveStages(env, gs) == PositiveStages(env, gs[..|gs| - 1]) + ["| " + OrClause(env, gs[|gs| - 1])]
  {
  }

  /** The leading space the positive block carries in front of its stages. */
  function Lead(a: seq<string>): string
  {
    if a == [] then "" else " " + Join(a, " ")
  }

  /** Stages are non-empty and neither start nor end with white space. */
  predicate TidyStages(ss: seq<string>)
  {
    forall i :: 0 <= i < |ss| ==> ss[i] != [] && Clean(ss[i], Whitespace)
  }

  lemma TidyJoin(ss: seq<string>)
    requires TidyStages(ss)
    ensures Clean(Join(ss, " "), Whitespace)
    ensures ss != [] ==> Join(ss, " ") != []
  {
    JoinClean(ss, " ", Whitespace);
    if ss != [] {
      JoinEnds(ss, " ");
    }
  }

  /** Trimming two blocks: the stages of both sides, in order, separated by one space. */
  lemma TrimTwoBlocks(a: seq<string>, b: seq<string>)
    requires TidyStages(a) && TidyStages(b)
    ensures Trim(Lead(a) + " " + Join(b, " "), Whitespace) == Join(a + b, " ")
  {
    TidyJoin(a);
    TidyJoin(b);
    JoinConcat(a, b, " ");
    var ja, jb := Join(a, " "), Join(b, " ");
    assert AllIn(" ", Whitespace);
    if a == [] {
      assert Lead(a) + " " + jb == " " + jb + "";
      TrimPadded(" ", jb, "", Whitespace);
    } else if b == [] {
      assert Lead(a) + " " + jb == " " + ja + " ";
      TrimPadded(" ", ja, " ", Whitespace);
    } else {
      assert Lead(a) + " " + jb == " " + (ja + " " + jb) + "";
      TrimPadded(" ", ja + " " + jb, "", Whitespace);
    }
  }

  /** The three-block trim on the joined texts. */
  lemma TrimThreeTexts(ja: string, jb: string, jc: string)
    requires Clean(ja, Whitespace) && Clean(jb, Whitespace) && Clean(jc, Whitespace)
    ensures Trim((if ja == [] then "" else " " + ja) + " " + jb + " " + jc, Whitespace) ==
      if ja == [] then (if jb == [] then jc else if jc == [] then jb else jb + " " + jc)
      else if jb == [] then (if jc == [] then ja else ja + "  " + jc)
      else if jc == [] then ja + " " + jb
      else ja + " " + jb + " " + jc
  {
    var s := (if ja == [] then "" else " " + ja) + " " + jb + " " + jc;
    assert AllIn(" ", Whitespace) && AllIn("  ", Whitespace);
    if ja == [] && jb == [] {
      assert s == "  " + jc + "";
      TrimPadded("  ", jc, "", Whitespace);
    } else if ja == [] && jc == [] {
      assert s == " " + jb + " ";
      TrimPadded(" ", jb, " ", Whitespace);
    } else if ja == [] {
      assert s == " " + (jb + " " + jc) + "";
      TrimPadded(" ", jb + " " + jc, "", Whitespace);
    } else if jb == [] && jc == [] {
      assert s == " " + ja + "  ";
      TrimPadded(" ", ja, "  ", Whitespace);
    } else if jb == [] {
      assert s == " " + (ja + "  " + jc) + "";
      TrimPadded(" ", ja + "  " + jc, "", Whitespace);
    } else if jc == [] {
      assert s == " " + (ja + " " + jb) + " ";
      TrimPadded(" ", ja + " " + jb, " ", Whitespace);
    } else {
      assert s == " " + (ja + " " + jb + " " + jc) + "";
      TrimPadded(" ", ja + " " + jb + " " + jc, "", Whitespace);
    }
  }

  /** Joining three lists at once, whichever of them are empty. */
  lemma JoinThree(a: seq<string>, b: seq<string>, c: seq<string>)
    ensures Join(a + b + c, " ") ==
      if a == [] then (if b == [] then Join(c, " ") else if c == [] then Join(b, " ") else Join(b, " ") + " " + Join(c, " "))
      else if b == [] then (if c == [] then Join(a, " ") else Join(a, " ") + " " + Join(c, " "))
      else if c == [] then Join(a, " ") + " " + Join(b, " ")
      else Join(a, " ") + " " + Join(b, " ") + " " + Join(c, " ")
  {
    JoinConcat(a, b, " ");
    JoinConcat(a + b, c, " ");
    if a == [] { assert a + b == b; }
    if b == [] { assert a + b == a; }
  }

  /** Trimming three blocks: the stages in order separated by one space, except that
      an empty middle block between two non-empty ones leaves two spaces. */
  lemma TrimThreeBlocks(a: seq<string>, b: seq<string>, c: seq<string>)
    requires TidyStages(a) && TidyStages(b) && TidyStages(c)
    ensures Trim(Lead(a) + " " + Join(b, " ") + " " + Join(c, " "), Whitespace) ==
      if a != [] && b == [] && c != [] then Join(a, " ") + "  " + Join(c, " ")
      else Join(a + b + c, " ")
  {
    TidyJoin(a);
    TidyJoin(b);
    TidyJoin(c);
    JoinThree(a, b, c);
    TrimThreeTexts(Join(a, " "), Join(b, " "), Join(c, " "));
  }

  /** A `"| "` stage whose body does not end in white space is tidy. */
  lemma PipedStageTidy(x: string)
    requires EndsOutside(x, Whitespace)
    ensures ("| " + x) != [] && Clean("| " + x, Whitespace)
  {
    SeparatorSets();
  }

  lemma RenderedTidy(env: Env, fs: seq<Filter>)
    requires MarkerEndsOutside(env, Whitespace)
    ensures TidyStages(Piped(Rendered(env, fs)))
  {
    SeparatorSets();
    forall i | 0 <= i < |fs|
      ensures EndsOutside(RenderMetadata(env, fs[i]), Whitespace)
    {
      RenderMetadataEdges(env, fs[i], Whitespace);
    }
    forall i | 0 <= i < |fs|
      ensures ("| " + RenderMetadata(env, fs[i])) != [] && Clean("| " + RenderMetadata(env, fs[i]), Whitespace)
    {
      PipedStageTidy(RenderMetadata(env, fs[i]));
    }
  }

  /** The stage of one non-empty positive bucket is tidy. */
  lemma OrClauseTidy(env: Env, g: Group)
    requires MarkerEndsOutside(env, Whitespace)
    requires g.members != []
    ensures ("| " + OrClause(env, g)) != [] && Clean("| " + OrClause(env, g), Whitespace)
  {
    SeparatorSets();
    var rs := Rendered(env, g.members);
    assert forall k :: 0 <= k < |rs| ==> rs[k] != [];
    JoinEnds(rs, " or ");
    RenderMetadataEdges(env, g.members[|rs| - 1], Whitespace);
    PipedStageTidy(OrClause(env, g));
  }

  lemma PositiveStagesTidy(env: Env, gs: seq<Group>)
    requires MarkerEndsOutside(env, Whitespace)
    requires forall i :: 0 <= i < |gs| ==> gs[i].members != []
    ensures TidyStages(PositiveStages(env, gs))
  {
    forall i | 0 <= i < |gs|
      ensures ("| " + OrClause(env, gs[i])) != [] && Clean("| " + OrClause(env, gs[i]), Whitespace)
    {
      OrClauseTidy(env, gs[i]);
    }
  }

  lemma NumericStagesTidy(fs: seq<Filter>)
    requires forall f :: f in fs ==> f.value == [] || f.value[|f.value| - 1] !in Whitespace
    ensures TidyStages(NumericStages(fs))
  {
    SeparatorSets();
    forall i | 0 <= i < |fs|
      ensures ("| " + NumericComparison(fs[i])) != [] && Clean("| " + NumericComparison(fs[i]), Whitespace)
    {
      var s := Symbol(fs[i].op);
      assert s[|s| - 1] in "=!~<>|";
      assert fs[i] in fs;
      PipedStageTidy(NumericComparison(fs[i]));
    }
  }

  /** The metadata text is one `| a or b` stage per positive key (keys in order of first
      appearance, each key's filters in input order), followed by one `| x` stage per
      negative filter in input order, all separated by one space. Needs only that the
      empty-value sentinel does not end in white space. */
  lemma MetadataFiltersJoined(env: Env, fs: seq<Filter>)
    requires MarkerEndsOutside(env, Whitespace)
    ensures MetadataFiltersText(env, fs) ==
      Join(PositiveStages(env, GroupByKey(OfClass(fs, env.inclusive)))
           + Piped(Rendered(env, OfClass(fs, env.exclusive))), " ")
  {
    var gs := GroupByKey(OfClass(fs, env.inclusive));
    GroupByKeyMembers(OfClass(fs, env.inclusive));
    PositiveBlockJoin(env, gs);
    PositiveStagesTidy(env, gs);
    RenderedTidy(env, OfClass(fs, env.exclusive));
    TrimTwoBlocks(PositiveStages(env, gs), Piped(Rendered(env, OfClass(fs, env.exclusive))));
  }

  /** The field text is the positive stages, then a stage per negative filter, then a
      stage per numeric filter, separated by one space — except that with positive and
      numeric stages but no negative one, the empty negative block leaves two spaces
      between them. Needs the sentinel and every numeric value not to end in white
      space. */
  lemma FieldFiltersJoined(env: Env, ffs: seq<FieldFilter>)
    requires MarkerEndsOutside(env, Whitespace)
    requires forall ff :: ff in ffs && ff.op in env.numeric ==>
      ff.value.value == [] || ff.value.value[|ff.value.value| - 1] !in Whitespace
    ensures var ds := DecodedAll(ffs);
      var p := PositiveStages(env, GroupByKey(OfClass(ds, env.inclusive)));
      var n := Piped(Rendered(env, OfClass(ds, env.exclusive)));
      var m := NumericStages(OfClass(ds, env.numeric));
      FieldFiltersText(env, ffs) ==
        if p != [] && n == [] && m != [] then Join(p, " ") + "  " + Join(m, " ")
        else Join(p + n + m, " ")
  {
    var ds := DecodedAll(ffs);
    var gs := GroupByKey(OfClass(ds, env.inclusive));
    var p := PositiveStages(env, gs);
    var n := Piped(Rendered(env, OfClass(ds, env.exclusive)));
    var m := NumericStages(OfClass(ds, env.numeric));
    GroupByKeyMembers(OfClass(ds, env.inclusive));
    PositiveBlockJoin(env, gs);
    PositiveStagesTidy(env, gs);
    RenderedTidy(env, OfClass(ds, env.exclusive));
    DecodedNumericTidy(env, ffs);
    TrimThreeBlocks(p, n, m);
    assert FieldFiltersText(env, ffs) == Trim(Lead(p) + " " + Join(n, " ") + " " + Join(m, " "), Whitespace);
  }

  lemma DecodedNumericTidy(env: Env, ffs: seq<FieldFilter>)
    requires forall ff :: ff in ffs && ff.op in env.numeric ==>
      ff.value.value == [] || ff.value.value[|ff.value.value| - 1] !in Whitespace
    ensures TidyStages(NumericStages(OfClass(DecodedAll(ffs), env.numeric)))
  {
    var ds := DecodedAll(ffs);
    forall f | f in OfClass(ds, env.numeric)
      ensures f.value == [] || f.value[|f.value| - 1] !in Whitespace
    {
      var i :| 0 <= i < |ds| && ds[i] == f;
      assert ffs[i] in ffs;
    }
    NumericStagesTidy(OfClass(ds, env.numeric));
  }
}
