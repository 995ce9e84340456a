/**
 * How the runtime widget turns the search widget's events into the facility:
 * `handleSearchComplete` folds over the candidates of every source, and
 * `handleSearchResult` takes the result the user picked.
 */
module FacilitySearch {
  import opened JsValues
  import opened WidgetTypes

  /** One candidate of a source: its feature (possibly missing) and its display name. */
  datatype SearchResult = SearchResult(feature: Option<Feature>, name: string)

  /** The candidates one source returned; the list itself may be null. */
  datatype SourceResults = SourceResults(results: Option<seq<SearchResult>>)

  /** What a handler does with the state: set the facility, or throw before `setState`. */
  datatype SearchOutcome = SetFacility(facility: Option<Feature>) | Threw

  /** The inner `reduce`: starting from null, every candidate that has a feature replaces the choice. */
  function PickInSource(rs: seq<SearchResult>): (r: Option<Feature>)
    ensures r.Some? ==> exists i :: 0 <= i < |rs| && rs[i].feature == r
  {
    if rs == [] then None
    else
      var last := rs[|rs| - 1];
      if last.feature.Some? then last.feature else PickInSource(rs[..|rs| - 1])
  }

  predicate NonEmptySource(src: SourceResults) {
    src.results.Some? && |src.results.value| > 0
  }

  /**
   * The outer `reduce`: starting from null, every source with a non-empty candidate
   * list replaces the choice with the inner reduce of that list.
   */
  function PickAcrossSources(sources: seq<SourceResults>): (r: Option<Feature>)
  {
    if sources == [] then None
    else
      var last := sources[|sources| - 1];
      if NonEmptySource(last) then PickInSource(last.results.value)
      else PickAcrossSources(sources[..|sources| - 1])
  }

  /**
   * `handleSearchComplete`: no facility when there are no results; otherwise the
   * folded choice, and when that is null, setting its symbol throws a TypeError
   * before the state is touched.
   */
  function SearchComplete(numResults: int, sources: seq<SourceResults>): (r: SearchOutcome)
    ensures numResults <= 0 ==> r == SetFacility(None)
    ensures numResults > 0 ==> (r == Threw <==> PickAcrossSources(sources).None?)
    ensures numResults > 0 && PickAcrossSources(sources).Some? ==> r == SetFacility(PickAcrossSources(sources))
  {
    if numResults <= 0 then SetFacility(None)
    else
      var f := PickAcrossSources(sources);
      if f.None? then Threw else SetFacility(f)
  }

  /**
   * `handleSearchResult`: the picked result's feature, renamed after the result;
   * a result without a feature throws.
   */
  function SearchResultPicked(result: SearchResult): (r: SearchOutcome)
    ensures r == Threw <==> result.feature.None?
    ensures r.SetFacility? ==>
      r.facility == Some(Feature(result.feature.value.location, Some(result.name)))
  {
    if result.feature.None? then Threw
    else SetFacility(Some(result.feature.value.(name := Some(result.name))))
  }

  // ---------------------------------------------------------------------------
  // Which candidate wins

  /** Within one source the LAST candidate that has a feature wins, and null when none has one. */
  lemma {:induction false} PickInSourceIsLast(rs: seq<SearchResult>)
    ensures PickInSource(rs).None? <==> forall i :: 0 <= i < |rs| ==> rs[i].feature.None?
    ensures PickInSource(rs).Some? ==>
      exists i :: 0 <= i < |rs| && rs[i].feature == PickInSource(rs)
        && forall j :: i < j < |rs| ==> rs[j].feature.None?
  {
    if rs != [] {
      var init := rs[..|rs| - 1];
      PickInSourceIsLast(init);
      var n := |rs| - 1;
      if rs[n].feature.None? {
        assert forall i :: 0 <= i < n ==> init[i] == rs[i];
        if PickInSource(rs).Some? {
          var i :| 0 <= i < |init| && init[i].feature == PickInSource(init)
            && forall j :: i < j < |init| ==> init[j].feature.None?;
          assert rs[i].feature == PickInSource(rs);
          assert forall j :: i < j < |rs| ==> rs[j].feature.None?;
        }
      }
    }
  }

  /**
   * Across sources the LAST source with a non-empty candidate list decides: the result
   * is its inner choice, even when that is null and an earlier source had a feature.
   */
  lemma {:induction false} PickAcrossSourcesIsLastNonEmpty(sources: seq<SourceResults>)
    ensures (forall i :: 0 <= i < |sources| ==> !NonEmptySource(sources[i])) ==>
      PickAcrossSources(sources) == None
    ensures forall i ::
      (0 <= i < |sources| && NonEmptySource(sources[i]) && forall j :: i < j < |sources| ==> !NonEmptySource(sources[j]))
      ==> PickAcrossSources(sources) == PickInSource(sources[i].results.value)
  {
    if sources != [] {
      var n := |sources| - 1;
      var init := sources[..n];
      PickAcrossSourcesIsLastNonEmpty(init);
      assert forall i :: 0 <= i < n ==> init[i] == sources[i];
    }
  }

  /**
   * A later source whose candidates all lack a feature resets the choice to null,
   * so the event then throws although an earlier source had a feature.
   */
  lemma LaterFeaturelessSourceThrows(f: Feature)
    ensures var first := SourceResults(Some([SearchResult(Some(f), "a")]));
      var second := SourceResults(Some([SearchResult(None, "b")]));
      && PickAcrossSources([first]) == Some(f)
      && SearchComplete(2, [first, second]) == Threw
  {
    var first := SourceResults(Some([SearchResult(Some(f), "a")]));
    var second := SourceResults(Some([SearchResult(None, "b")]));
    assert [first, second][..1] == [first];
    assert [SearchResult(None, "b")][..0] == [];
  }
}
