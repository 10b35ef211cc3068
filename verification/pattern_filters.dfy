/**
 * The pattern renderer `renderPatternFilters`: excluded patterns become `!> "p"`
 * stages, included patterns one `|> "a" or "b"` stage.
 */
module PatternFilters {
  import opened Filters
  import opened Text
  import opened Escaping

  /** The patterns of one kind, in input order. */
  function OfKind(ps: seq<Pattern>, kind: PatternType): (r: seq<Pattern>)
    ensures forall p :: p in r <==> p in ps && p.kind == kind
    ensures forall p :: multiset(r)[p] == if p.kind == kind then multiset(ps)[p] else 0
    ensures IsSubsequence(r, ps)
  {
    if ps == [] then []
    else
      var init := OfKind(ps[..|ps| - 1], kind);
      var p := ps[|ps| - 1];
      assert ps == ps[..|ps| - 1] + [p];
      if p.kind == kind then
        assert (init + [p])[..|init|] == init;
        init + [p]
      else
        SubsequenceExtend(init, ps[..|ps| - 1], p);
        init
  }

  /** A pattern as an exact-escaped double-quoted literal. */
  function Quoted(p: Pattern): string
  {
    "\"" + ExactEscape(p.pattern) + "\""
  }

  function QuotedAll(ps: seq<Pattern>): (qs: seq<string>)
    ensures |qs| == |ps|
    ensures forall i :: 0 <= i < |ps| ==> qs[i] == Quoted(ps[i])
  {
    seq(|ps|, i requires 0 <= i < |ps| => Quoted(ps[i]))
  }

  function ExcludeStages(ps: seq<Pattern>): (ss: seq<string>)
    ensures |ss| == |ps|
    ensures forall i :: 0 <= i < |ps| ==> ss[i] == "!> " + Quoted(ps[i])
  {
    seq(|ps|, i requires 0 <= i < |ps| => "!> " + Quoted(ps[i]))
  }

  /** The include stage as the source builds it: nothing, a single `|> "p"`, or `|> `
      followed by the quoted patterns joined by ` or `. */
  function IncludeLine(includes: seq<Pattern>): string
  {
    if |includes| == 0 then ""
    else if |includes| == 1 then "|> " + Quoted(includes[0])
    else "|> " + Join(QuotedAll(includes), " or ")
  }

  /** The single-include branch is the general form with one alternative: the include
      stage is always `|> ` followed by the quoted patterns joined by ` or `. */
  lemma IncludeLineForm(includes: seq<Pattern>)
    requires includes != []
    ensures IncludeLine(includes) == "|> " + Join(QuotedAll(includes), " or ")
  {
  }

  /** A quoted pattern reads back as the pattern. */
  lemma QuotedMeaning(p: Pattern)
    ensures var q := Quoted(p);
      |q| >= 2 && q[0] == '"' && q[|q| - 1] == '"' && Unescape(q[1..|q| - 1]) == Some(p.pattern)
  {
    ExactEscapeRoundTrip(p.pattern);
    assert Quoted(p)[1..|Quoted(p)| - 1] == ExactEscape(p.pattern);
  }

  /** The exclude stages are non-empty and start and end with no white space. */
  lemma ExcludeStagesClean(ps: seq<Pattern>)
    ensures forall i :: 0 <= i < |ps| ==>
      ExcludeStages(ps)[i] != [] && Clean(ExcludeStages(ps)[i], Whitespace)
  {
    SeparatorSets();
  }

  /** A non-empty include line starts with `|` and ends with a quote. */
  lemma IncludeLineClean(includes: seq<Pattern>)
    requires includes != []
    ensures IncludeLine(includes) != [] && Clean(IncludeLine(includes), Whitespace)
  {
    SeparatorSets();
    var qs := QuotedAll(includes);
    assert forall i :: 0 <= i < |qs| ==> qs[i] != [];
    JoinEnds(qs, " or ");
    IncludeLineForm(includes);
  }

  /** The exclude line: the stages joined by a space, which the trim leaves alone. */
  lemma ExcludeLineJoined(ps: seq<Pattern>)
    ensures Trim(Join(ExcludeStages(ps), " "), Whitespace) == Join(ExcludeStages(ps), " ")
    ensures Clean(Join(ExcludeStages(ps), " "), Whitespace)
    ensures ps != [] ==> Join(ExcludeStages(ps), " ") != []
  {
    var ex := ExcludeStages(ps);
    ExcludeStagesClean(ps);
    JoinClean(ex, " ", Whitespace);
    TrimPadded("", Join(ex, " "), "", Whitespace);
    assert "" + Join(ex, " ") + "" == Join(ex, " ");
    if ex != [] {
      JoinEnds(ex, " ");
    }
  }

  /** Trimming two clean texts put side by side with a space. */
  lemma TrimSpaced(x: string, y: string)
    requires Clean(x, Whitespace) && Clean(y, Whitespace)
    ensures Trim(x + " " + y, Whitespace) ==
      if x == [] then y else if y == [] then x else x + " " + y
  {
    assert AllIn(" ", Whitespace);
    if x == [] {
      assert x + " " + y == " " + y + "";
      TrimPadded(" ", y, "", Whitespace);
    } else if y == [] {
      assert x + " " + y == "" + x + " ";
      TrimPadded("", x, " ", Whitespace);
    } else {
      assert x + " " + y == "" + (x + " " + y) + "";
      TrimPadded("", x + " " + y, "", Whitespace);
    }
  }

  /** The text `renderPatternFilters` returns: the `!> "p"` stages of the excluded
      patterns in input order, followed by one `|> ` stage holding the included patterns
      joined by ` or ` when there is one, separated by single spaces, with no white
      space at either end; the text is empty exactly when there are no patterns. */
  function PatternFiltersText(ps: seq<Pattern>): (r: string)
    ensures r == Join(ExcludeStages(OfKind(ps, Exclude)) +
      (if OfKind(ps, Include) == [] then [] else ["|> " + Join(QuotedAll(OfKind(ps, Include)), " or ")]), " ")
    ensures r == [] <==> ps == []
  {
    var ex := ExcludeStages(OfKind(ps, Exclude));
    var inc := OfKind(ps, Include);
    var excludeLine := Trim(Join(ex, " "), Whitespace);
    var r := Trim(excludeLine + " " + IncludeLine(inc), Whitespace);
    ExcludeLineJoined(OfKind(ps, Exclude));
    assert ps != [] ==> ps[0] in OfKind(ps, ps[0].kind);
    if inc == [] then
      TrimSpaced(Join(ex, " "), "");
      assert ex + [] == ex;
      r
    else
      IncludeLineClean(inc);
      IncludeLineForm(inc);
      TrimSpaced(Join(ex, " "), IncludeLine(inc));
      JoinConcat(ex, [IncludeLine(inc)], " ");
      r
  }
}
