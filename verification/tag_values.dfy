/**
 * The pure steps of the autocomplete providers: the filters sent along with a
 * label-values request (`tagValuesFilterAdHocFilters`), the removal of label values
 * that are already selected and the favourites-first ordering
 * (`getLabelsTagValuesProvider`), and the removal of detected-field values that are
 * already in use (`getDetectedFieldValuesTagValuesProvider`).
 */
module TagValues {
  import opened Filters
  import opened Text
  import opened Escaping

  // ---------------------------------------------------------------- tagValuesFilterAdHocFilters

  /** An existing `=` filter on the key of a new inclusive filter, which the request
      leaves out so that other values of that label can be offered. */
  predicate Superseded(env: Env, f: Filter, newFilter: Filter)
  {
    newFilter.op in env.inclusive && f.key == newFilter.key && f.op == Equal
  }

  predicate HasInclusive(env: Env, fs: seq<Filter>)
  {
    exists i :: 0 <= i < |fs| && fs[i].op in env.inclusive
  }

  /** The first step: every filter that is not superseded, in order. When the new
      filter is not inclusive nothing is superseded and nothing is removed. */
  function DropSuperseded(env: Env, fs: seq<Filter>, newFilter: Filter): (r: seq<Filter>)
    ensures forall f :: f in r <==> f in fs && !Superseded(env, f, newFilter)
    ensures forall f :: multiset(r)[f] == if Superseded(env, f, newFilter) then 0 else multiset(fs)[f]
    ensures IsSubsequence(r, fs)
    ensures newFilter.op !in env.inclusive ==> r == fs
  {
    if fs == [] then []
    else
      var pre := fs[..|fs| - 1];
      var init := DropSuperseded(env, pre, newFilter);
      var f := fs[|fs| - 1];
      assert fs == pre + [f];
      if !Superseded(env, f, newFilter) then
        assert (init + [f])[..|init|] == init;
        assert multiset(init + [f]) == multiset(init) + multiset{f};
        init + [f]
      else
        SubsequenceExtend(init, pre, f);
        assert multiset(fs) == multiset(pre) + multiset{f};
        init
  }

  /** `tagValuesFilterAdHocFilters`: drop the superseded filters; then, if no inclusive
      filter is left, drop everything, since a selector needs an inclusive matcher.
      The result keeps the input order, never holds a superseded filter, and is either
      empty or holds an inclusive filter; it is empty exactly when no inclusive filter
      survives the first step, and otherwise keeps every filter that survives it. */
  function TagValuesFilterAdHocFilters(env: Env, fs: seq<Filter>, newFilter: Filter): (r: seq<Filter>)
    ensures IsSubsequence(r, fs)
    ensures forall f :: f in r ==> !Superseded(env, f, newFilter)
    ensures r == [] || HasInclusive(env, r)
    ensures r == [] <==> !(exists f :: f in fs && !Superseded(env, f, newFilter) && f.op in env.inclusive)
    ensures r != [] ==> forall f :: f in fs && !Superseded(env, f, newFilter) ==> f in r
    ensures r == [] || r == DropSuperseded(env, fs, newFilter)
  {
    var kept := DropSuperseded(env, fs, newFilter);
    if !HasInclusive(env, kept) then
      assert forall f :: f in kept ==> f.op !in env.inclusive;
      []
    else
      var i :| 0 <= i < |kept| && kept[i].op in env.inclusive;
      assert kept[i] in kept;
      kept
  }

  /** The result is never longer than the filters it was taken from. */
  lemma TagValuesFilterNeverLonger(env: Env, fs: seq<Filter>, newFilter: Filter)
    ensures |TagValuesFilterAdHocFilters(env, fs, newFilter)| <= |fs|
  {
    SubsequenceLength(TagValuesFilterAdHocFilters(env, fs, newFilter), fs);
  }

  // ---------------------------------------------------------------- label value suggestions

  /** An existing filter on `key` already selects value `v`: a regex filter lists it
      among its `|`-separated alternatives, an `=` filter has it as its value. */
  predicate Selects(env: Env, f: Filter, key: string, v: string)
  {
    f.key == key && (if f.op in env.regex then v in Split(f.value, '|') else f.op == Equal && f.value == v)
  }

  predicate AlreadySelected(env: Env, current: seq<Filter>, key: string, v: string)
  {
    exists i :: 0 <= i < |current| && Selects(env, current[i], key, v)
  }

  /** The candidate values for `key` that no current filter selects, in order. */
  function Unselected(env: Env, current: seq<Filter>, key: string, results: seq<string>): (r: seq<string>)
    ensures forall v :: v in r <==> v in results && !AlreadySelected(env, current, key, v)
    ensures forall v :: multiset(r)[v] == if AlreadySelected(env, current, key, v) then 0 else multiset(results)[v]
    ensures IsSubsequence(r, results)
  {
    if results == [] then []
    else
      var init := Unselected(env, current, key, results[..|results| - 1]);
      var v := results[|results| - 1];
      assert results == results[..|results| - 1] + [v];
      if !AlreadySelected(env, current, key, v) then
        assert (init + [v])[..|init|] == init;
        init + [v]
      else
        SubsequenceExtend(init, results[..|results| - 1], v);
        init
  }

  /** The values of `xs` that are (`wanted`) or are not (`!wanted`) favourites, in order. */
  function FavouriteClass(xs: seq<string>, favourites: set<string>, wanted: bool): (r: seq<string>)
    ensures forall v :: v in r <==> v in xs && (v in favourites) == wanted
    ensures forall i :: 0 <= i < |r| ==> (r[i] in favourites) == wanted
  {
    if xs == [] then []
    else
      var init := FavouriteClass(xs[..|xs| - 1], favourites, wanted);
      var v := xs[|xs| - 1];
      assert xs == xs[..|xs| - 1] + [v];
      if (v in favourites) == wanted then init + [v] else init
  }

  /** A class keeps every value of that class as often as it occurs, and nothing
      else, in input order. */
  lemma {:induction false} FavouriteClassCounts(xs: seq<string>, favourites: set<string>, wanted: bool)
    ensures forall v :: multiset(FavouriteClass(xs, favourites, wanted))[v] ==
                        if (v in favourites) == wanted then multiset(xs)[v] else 0
    ensures IsSubsequence(FavouriteClass(xs, favourites, wanted), xs)
  {
    if xs != [] {
      var pre := xs[..|xs| - 1];
      var v := xs[|xs| - 1];
      var init := FavouriteClass(pre, favourites, wanted);
      FavouriteClassCounts(pre, favourites, wanted);
      assert xs == pre + [v];
      assert multiset(xs) == multiset(pre) + multiset{v};
      if (v in favourites) == wanted {
        assert FavouriteClass(xs, favourites, wanted) == init + [v];
        assert (init + [v])[..|init|] == init;
        assert multiset(init + [v]) == multiset(init) + multiset{v};
      } else {
        assert FavouriteClass(xs, favourites, wanted) == init;
        SubsequenceExtend(init, pre, v);
      }
    }
  }

  /** The order `results.sort` produces with the favourites comparator: the comparator
      only separates favourites from the rest and the sort is stable, so favourites come
      first and each class keeps its order. */
  function FavouritesFirst(xs: seq<string>, favourites: set<string>): seq<string>
  {
    FavouriteClass(xs, favourites, true) + FavouriteClass(xs, favourites, false)
  }

  lemma {:induction false} FavouriteClassSplit(xs: seq<string>, favourites: set<string>)
    ensures multiset(FavouriteClass(xs, favourites, true)) + multiset(FavouriteClass(xs, favourites, false)) == multiset(xs)
  {
    if xs != [] {
      var init := xs[..|xs| - 1];
      FavouriteClassSplit(init, favourites);
      assert xs == init + [xs[|xs| - 1]];
    }
  }

  /** The favourites ordering is a stable partition: a permutation of its input in
      which every favourite precedes every other value, and which keeps the order of
      the favourites and the order of the other values. */
  lemma FavouritesFirstSpec(xs: seq<string>, favourites: set<string>)
    ensures multiset(FavouritesFirst(xs, favourites)) == multiset(xs)
    ensures var r := FavouritesFirst(xs, favourites);
      forall i, j :: 0 <= i < j < |r| && r[j] in favourites ==> r[i] in favourites
    ensures FavouriteClass(FavouritesFirst(xs, favourites), favourites, true) == FavouriteClass(xs, favourites, true)
    ensures FavouriteClass(FavouritesFirst(xs, favourites), favourites, false) == FavouriteClass(xs, favourites, false)
  {
    FavouriteClassSplit(xs, favourites);
    FavouritesFirstOrder(xs, favourites);
    FavouritesFirstStable(xs, favourites);
  }

  lemma FavouritesFirstOrder(xs: seq<string>, favourites: set<string>)
    ensures var r := FavouritesFirst(xs, favourites);
      forall i, j :: 0 <= i < j < |r| && r[j] in favourites ==> r[i] in favourites
  {
    var a := FavouriteClass(xs, favourites, true);
    var b := FavouriteClass(xs, favourites, false);
    var r := a + b;
    assert forall j :: |a| <= j < |r| ==> r[j] == b[j - |a|];
  }

  lemma FavouritesFirstStable(xs: seq<string>, favourites: set<string>)
    ensures FavouriteClass(FavouritesFirst(xs, favourites), favourites, true) == FavouriteClass(xs, favourites, true)
    ensures FavouriteClass(FavouritesFirst(xs, favourites), favourites, false) == FavouriteClass(xs, favourites, false)
  {
    var a := FavouriteClass(xs, favourites, true);
    var b := FavouriteClass(xs, favourites, false);
    ClassOfUniform(a, favourites, true);
    ClassOfUniform(b, favourites, false);
    ClassOfConcat(a, b, favourites, true);
    ClassOfConcat(a, b, favourites, false);
    assert a + [] == a;
    assert [] + b == b;
  }

  /** Selecting a class from a list of one class keeps all or nothing. */
  lemma {:induction false} ClassOfUniform(xs: seq<string>, favourites: set<string>, wanted: bool)
    requires forall i :: 0 <= i < |xs| ==> (xs[i] in favourites) == wanted
    ensures FavouriteClass(xs, favourites, wanted) == xs
    ensures FavouriteClass(xs, favourites, !wanted) == []
  {
    if xs != [] {
      ClassOfUniform(xs[..|xs| - 1], favourites, wanted);
      assert xs == xs[..|xs| - 1] + [xs[|xs| - 1]];
    }
  }

  lemma {:induction false} ClassOfConcat(a: seq<string>, b: seq<string>, favourites: set<string>, wanted: bool)
    ensures FavouriteClass(a + b, favourites, wanted) == FavouriteClass(a, favourites, wanted) + FavouriteClass(b, favourites, wanted)
  {
    if b == [] {
      assert a + b == a;
    } else {
      ClassOfConcat(a, b[..|b| - 1], favourites, wanted);
      assert (a + b)[..|a + b| - 1] == a + b[..|b| - 1];
    }
  }

  /** One pass over the values, collecting favourites and the rest, each in order. */
  method CollectByFavour(xs: seq<string>, favourites: set<string>) returns (front: seq<string>, back: seq<string>)
    ensures front == FavouriteClass(xs, favourites, true)
    ensures back == FavouriteClass(xs, favourites, false)
  {
    front, back := [], [];
    for i := 0 to |xs|
      invariant front == FavouriteClass(xs[..i], favourites, true)
      invariant back == FavouriteClass(xs[..i], favourites, false)
    {
      assert xs[..i + 1] == xs[..i] + [xs[i]];
      if xs[i] in favourites {
        front := front + [xs[i]];
      } else {
        back := back + [xs[i]];
      }
    }
    assert xs[..|xs|] == xs;
  }

  /** `results.sort(...)` with the favourites comparator, on the array in place. */
  method SortFavouritesFirst(a: array<string>, favourites: set<string>)
    modifies a
    ensures a[..] == FavouritesFirst(old(a[..]), favourites)
  {
    var front, back := CollectByFavour(a[..], favourites);
    var sorted := front + back;
    FavouriteClassSplit(a[..], favourites);
    assert |sorted| == a.Length by {
      assert |multiset(sorted)| == |multiset(a[..])|;
    }
    ghost var before := a[..];
    for i := 0 to a.Length
      invariant a[..i] == sorted[..i]
    {
      a[i] := sorted[i];
    }
    assert a[..] == a[..a.Length];
    assert sorted == FavouritesFirst(before, favourites);
  }

  /** The label-value suggestions of `getLabelsTagValuesProvider` for the fetched
      candidate values: the ones not already selected on `key`, favourites first
      when there are favourites. */
  method LabelValueSuggestions(env: Env, current: seq<Filter>, key: string, results: seq<string>, favourites: seq<string>)
    returns (values: seq<string>)
    ensures values == if |favourites| > 0 then FavouritesFirst(Unselected(env, current, key, results), set v | v in favourites)
                      else Unselected(env, current, key, results)
  {
    var filtered := Unselected(env, current, key, results);
    if |favourites| > 0 {
      var a := new string[|filtered|](i requires 0 <= i < |filtered| => filtered[i]);
      assert a[..] == filtered;
      SortFavouritesFirst(a, set v | v in favourites);
      values := a[..];
    } else {
      values := filtered;
    }
  }

  /** Skipping the sort when there are no favourites changes nothing: with no
      favourites the ordering is the identity. */
  lemma NoFavouritesNoChange(xs: seq<string>)
    ensures FavouritesFirst(xs, {}) == xs
  {
    ClassOfUniform(xs, {}, false);
    assert [] + xs == xs;
  }

  /** A suggested value is a candidate that no filter on the key selects, every such
      candidate is suggested, and there are never more suggestions than candidates. */
  lemma LabelValueSuggestionsSpec(env: Env, current: seq<Filter>, key: string, results: seq<string>, favourites: set<string>)
    ensures var r := FavouritesFirst(Unselected(env, current, key, results), favourites);
      (forall v :: v in r <==> v in results && !AlreadySelected(env, current, key, v)) && |r| <= |results|
  {
    var u := Unselected(env, current, key, results);
    FavouritesFirstSpec(u, favourites);
    SubsequenceLength(u, results);
    var r := FavouritesFirst(u, favourites);
    assert |r| == |u| by {
      assert |multiset(r)| == |multiset(u)|;
    }
    forall v ensures v in r <==> v in u {
      assert v in multiset(r) <==> v in multiset(u);
    }
  }

  // ---------------------------------------------------------------- detected-field values

  /** The text an existing filter contributes: its first value label, or its value
      when it has no labels. */
  function FirstLabelOr(f: Filter): string
  {
    if |f.valueLabels| > 0 then f.valueLabels[0] else f.value
  }

  /** The values one existing filter rules out, whatever its key: the alternatives of
      a regex filter, the single text of any other filter. */
  function RemovedBy(env: Env, f: Filter): seq<string>
  {
    if f.op in env.regex then Split(FirstLabelOr(f), '|') else [FirstLabelOr(f)]
  }

  /** `valuesToRemove` after the `forEach` over the current filters. */
  function ValuesToRemove(env: Env, fs: seq<Filter>): (r: seq<string>)
    ensures forall v :: v in r <==> exists i :: 0 <= i < |fs| && v in RemovedBy(env, fs[i])
  {
    if fs == [] then []
    else
      var init := ValuesToRemove(env, fs[..|fs| - 1]);
      var f := fs[|fs| - 1];
      assert forall i :: 0 <= i < |fs| - 1 ==> fs[..|fs| - 1][i] == fs[i];
      init + RemovedBy(env, f)
  }

  /** `results.filter((value) => !valuesToRemove.includes(value))`. */
  function WithoutValues(results: seq<string>, remove: seq<string>): (r: seq<string>)
    ensures forall v :: v in r <==> v in results && v !in remove
    ensures forall v :: multiset(r)[v] == if v in remove then 0 else multiset(results)[v]
    ensures IsSubsequence(r, results)
  {
    if results == [] then []
    else
      var init := WithoutValues(results[..|results| - 1], remove);
      var v := results[|results| - 1];
      assert results == results[..|results| - 1] + [v];
      if v !in remove then
        assert (init + [v])[..|init|] == init;
        init + [v]
      else
        SubsequenceExtend(init, results[..|results| - 1], v);
        init
  }

  /** One suggestion: its text, and for field values the decoded `{value, parser}`
      record that is sent as its value. */
  datatype Suggestion = Suggestion(text: string, field: Option<FieldValue>)

  /** The parser recorded with each suggested field value: that of the value being
      edited if there is one, else the parser in the filter's metadata, else `mixed`. */
  function SuggestionParser(edited: Option<FieldValue>, metaParser: Option<Parser>): Parser
  {
    if edited.Some? then edited.value.parser else if metaParser.Some? then metaParser.value else Mixed
  }

  /** The values `getDetectedFieldValuesTagValuesProvider` offers once the fetch has
      resolved: `None` stands for a failed or non-array fetch, `edited` for the decoded
      value of the filter being edited (present when it has a value), `metaParser` for
      the parser in its metadata. */
  method DetectedFieldValues(env: Env, forLevels: bool, current: seq<Filter>, edited: Option<FieldValue>,
                             metaParser: Option<Parser>, results: Option<seq<string>>)
    returns (values: seq<Suggestion>)
    ensures results.None? ==> values == []
    ensures results.Some? && forLevels ==>
      |values| == |results.value| &&
      forall i :: 0 <= i < |values| ==> values[i] == Suggestion(results.value[i], None)
    ensures results.Some? && !forLevels ==>
      var texts := WithoutValues(results.value, ValuesToRemove(env, current));
      |values| == |texts| &&
      forall i :: 0 <= i < |values| ==>
        values[i].text == texts[i] &&
        values[i].field == if metaParser == Some(StructuredMetadata) then None
                           else Some(FieldValue(texts[i], SuggestionParser(edited, metaParser)))
  {
    if results.None? {
      return [];
    }
    var fetched := results.value;
    if forLevels {
      return seq(|fetched|, i requires 0 <= i < |fetched| => Suggestion(fetched[i], None));
    }
    var valuesToRemove: seq<string> := [];
    for i := 0 to |current|
      invariant valuesToRemove == ValuesToRemove(env, current[..i])
    {
      assert current[..i + 1][..i] == current[..i];
      var f := current[i];
      var value := if |f.valueLabels| > 0 then f.valueLabels[0] else f.value;
      if f.op in env.regex {
        valuesToRemove := valuesToRemove + Split(value, '|');
      } else {
        valuesToRemove := valuesToRemove + [value];
      }
    }
    assert current[..|current|] == current;
    var filtered := WithoutValues(fetched, valuesToRemove);
    if metaParser != Some(StructuredMetadata) {
      var parser := SuggestionParser(edited, metaParser);
      values := seq(|filtered|, i requires 0 <= i < |filtered| => Suggestion(filtered[i], Some(FieldValue(filtered[i], parser))));
    } else {
      values := seq(|filtered|, i requires 0 <= i < |filtered| => Suggestion(filtered[i], None));
    }
  }

  /** A detected-field candidate is removed exactly when some current filter, of any
      key, rules it out; the survivors keep their order and are never more than the
      candidates. */
  lemma DetectedFieldFilterSpec(env: Env, current: seq<Filter>, results: seq<string>)
    ensures var r := WithoutValues(results, ValuesToRemove(env, current));
      (forall v :: v in r <==> v in results && !exists i :: 0 <= i < |current| && v in RemovedBy(env, current[i])) &&
      IsSubsequence(r, results) && |r| <= |results|
  {
    SubsequenceLength(WithoutValues(results, ValuesToRemove(env, current)), results);
  }
}
