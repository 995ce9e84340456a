/**
 * What the runtime widget does with a successful solve: the service-area polygons
 * are sorted by their upper break, each gets a fill colour from the configured
 * palette (a random colour where the palette has no usable entry) and the label
 * "<from> - <to> min", and the list is reversed so that the widest zone comes
 * first and the narrowest is drawn on top. `handleResultColorsChange` repaints an
 * existing result with a new palette.
 */
module SolveResults {
  import opened JsValues
  import opened ConfigTypes
  import opened WidgetTypes

  // ---------------------------------------------------------------------------
  // Sorting by ToBreak

  predicate SortedByToBreak(ps: seq<ZonePolygon>) {
    forall i, j :: 0 <= i < j < |ps| ==> ps[i].toBreak <= ps[j].toBreak
  }

  /** Inserts `p` in front of the first polygon with a larger `toBreak`. */
  function Insert(p: ZonePolygon, ps: seq<ZonePolygon>): (r: seq<ZonePolygon>)
    requires SortedByToBreak(ps)
    ensures SortedByToBreak(r)
    ensures multiset(r) == multiset(ps) + multiset{p}
    ensures |r| == |ps| + 1
  {
    if ps == [] || p.toBreak <= ps[0].toBreak then [p] + ps
    else
      var rest := Insert(p, ps[1..]);
      assert ps == [ps[0]] + ps[1..];
      assert forall k :: 0 <= k < |rest| ==> ps[0].toBreak <= rest[k].toBreak by {
        forall k | 0 <= k < |rest|
          ensures ps[0].toBreak <= rest[k].toBreak
        {
          assert rest[k] in multiset(rest);
        }
      }
      [ps[0]] + rest
  }

  /**
   * The `sort` of the solver's polygons by ascending `ToBreak`. The comparator
   * never answers "equal", so the order among equal breaks is the engine's; this
   * model keeps their input order.
   */
  function SortByToBreak(ps: seq<ZonePolygon>): (r: seq<ZonePolygon>)
    ensures SortedByToBreak(r)
    ensures multiset(r) == multiset(ps)
    ensures |r| == |ps|
  {
    if ps == [] then []
    else
      assert ps == [ps[0]] + ps[1..];
      Insert(ps[0], SortByToBreak(ps[1..]))
  }

  // ---------------------------------------------------------------------------
  // Colour, label and order

  /** The label `${FromBreak} - ${ToBreak} min`. */
  function Label(p: ZonePolygon): string {
    IntToString(p.fromBreak) + " - " + IntToString(p.toBreak) + " min"
  }

  /**
   * The colour of the i-th polygon in ascending order: the palette entry when it is
   * truthy (present and non-empty), else the random colour drawn for that position.
   */
  function ColorAt(colors: seq<string>, randoms: seq<string>, i: nat): (c: string)
    requires i < |randoms|
    ensures i < |colors| && colors[i] != "" ==> c == colors[i]
    ensures !(i < |colors| && colors[i] != "") ==> c == randoms[i]
  {
    if i < |colors| && colors[i] != "" then colors[i] else randoms[i]
  }

  function Reverse<T>(s: seq<T>): (r: seq<T>)
    ensures |r| == |s|
    ensures forall i :: 0 <= i < |s| ==> r[i] == s[|s| - 1 - i]
  {
    seq(|s|, i requires 0 <= i < |s| => s[|s| - 1 - i])
  }

  /** The `map` step: symbol and label for each polygon in ascending order. */
  function Styled(sorted: seq<ZonePolygon>, colors: seq<string>, randoms: seq<string>): (r: seq<ServiceArea>)
    requires |randoms| >= |sorted|
    ensures |r| == |sorted|
    ensures forall i :: 0 <= i < |sorted| ==>
      r[i] == ServiceArea(sorted[i], Label(sorted[i]), Some(ColorAt(colors, randoms, i)))
  {
    seq(|sorted|, i requires 0 <= i < |sorted| =>
      ServiceArea(sorted[i], Label(sorted[i]), Some(ColorAt(colors, randoms, i))))
  }

  /** The whole `sort`, `map`, `reverse` chain applied to a non-null polygon list. */
  function ProcessPolygons(ps: seq<ZonePolygon>, colors: seq<string>, randoms: seq<string>): (r: seq<ServiceArea>)
    requires |randoms| >= |ps|
    ensures |r| == |ps|
  {
    Reverse(Styled(SortByToBreak(ps), colors, randoms))
  }

  function Polygons(areas: seq<ServiceArea>): (r: seq<ZonePolygon>)
    ensures |r| == |areas|
    ensures forall i :: 0 <= i < |areas| ==> r[i] == areas[i].polygon
  {
    seq(|areas|, i requires 0 <= i < |areas| => areas[i].polygon)
  }

  // ---------------------------------------------------------------------------
  // Properties of the processed result

  /** Reversing keeps every element with its multiplicity. */
  lemma {:induction false} ReversePermutes<T>(s: seq<T>)
    ensures multiset(Reverse(s)) == multiset(s)
  {
    if s != [] {
      var init := s[..|s| - 1];
      ReversePermutes(init);
      assert Reverse(s) == [s[|s| - 1]] + Reverse(init);
      assert s == init + [s[|s| - 1]];
    }
  }

  /**
   * The processed result holds exactly the solver's polygons, ordered by
   * descending `ToBreak`, so the narrowest zone comes last.
   */
  lemma ProcessedIsDescendingPermutation(ps: seq<ZonePolygon>, colors: seq<string>, randoms: seq<string>)
    requires |randoms| >= |ps|
    ensures var r := ProcessPolygons(ps, colors, randoms);
      && multiset(Polygons(r)) == multiset(ps)
      && forall i, j :: 0 <= i < j < |r| ==> r[i].polygon.toBreak >= r[j].polygon.toBreak
  {
    var sorted := SortByToBreak(ps);
    var r := ProcessPolygons(ps, colors, randoms);
    assert Polygons(r) == Reverse(sorted);
    ReversePermutes(sorted);
  }

  /**
   * Position k from the end of the result is the k-th polygon in ascending order,
   * labelled "<from> - <to> min" and coloured with palette entry k (or its random
   * fallback).
   */
  lemma ProcessedColorsAndLabels(ps: seq<ZonePolygon>, colors: seq<string>, randoms: seq<string>, k: nat)
    requires |randoms| >= |ps| && k < |ps|
    ensures var r := ProcessPolygons(ps, colors, randoms);
      var area := r[|r| - 1 - k];
      && area.polygon == SortByToBreak(ps)[k]
      && area.name == IntToString(area.polygon.fromBreak) + " - " + IntToString(area.polygon.toBreak) + " min"
      && area.color == Some(if k < |colors| && colors[k] != "" then colors[k] else randoms[k])
  {
    var sorted := SortByToBreak(ps);
    var styled := Styled(sorted, colors, randoms);
    var r := Reverse(styled);
    assert r == ProcessPolygons(ps, colors, randoms);
    assert r[|r| - 1 - k] == styled[k];
  }

  /** A non-null but empty polygon list is processed into an empty, non-null result. */
  lemma ProcessedEmpty(colors: seq<string>, randoms: seq<string>)
    ensures ProcessPolygons([], colors, randoms) == []
  {
  }

  /** Every polygon of the result gets a colour that is a truthy string. */
  lemma ProcessedColorsTruthy(ps: seq<ZonePolygon>, colors: seq<string>, randoms: seq<string>)
    requires |randoms| >= |ps| && RandomColors(randoms)
    ensures forall a :: a in ProcessPolygons(ps, colors, randoms) ==> a.color.Some? && a.color.value != ""
  {
    var sorted := SortByToBreak(ps);
    var styled := Styled(sorted, colors, randoms);
    StyledColorsTruthy(sorted, colors, randoms);
    var r := Reverse(styled);
    forall a | a in r
      ensures a.color.Some? && a.color.value != ""
    {
      var i :| 0 <= i < |r| && r[i] == a;
      assert a == styled[|r| - 1 - i];
    }
  }

  /** Every styled polygon, before the reverse, has a non-empty colour. */
  lemma StyledColorsTruthy(sorted: seq<ZonePolygon>, colors: seq<string>, randoms: seq<string>)
    requires |randoms| >= |sorted| && RandomColors(randoms)
    ensures forall k :: 0 <= k < |sorted| ==>
      Styled(sorted, colors, randoms)[k].color.Some? && Styled(sorted, colors, randoms)[k].color.value != ""
  {
    forall k | 0 <= k < |sorted|
      ensures Styled(sorted, colors, randoms)[k].color.Some? && Styled(sorted, colors, randoms)[k].color.value != ""
    {
      assert |randoms[k]| > 0;
    }
  }

  // ---------------------------------------------------------------------------
  // Recolouring

  /**
   * `handleResultColorsChange`: reverse the displayed list back to ascending order,
   * give element i the colour `colors[i]` (None when the palette is shorter: the
   * colour is built from `undefined`), then reverse again.
   */
  function Recolored(areas: seq<ServiceArea>, colors: seq<string>): (r: seq<ServiceArea>)
    ensures |r| == |areas|
  {
    var ascending := Reverse(areas);
    Reverse(seq(|ascending|, i requires 0 <= i < |ascending| =>
      ascending[i].(color := if i < |colors| then Some(colors[i]) else None)))
  }

  /**
   * Recolouring keeps each polygon and label in place and gives the element k from
   * the end the palette entry k.
   */
  lemma RecoloredInPlace(areas: seq<ServiceArea>, colors: seq<string>, j: nat)
    requires j < |areas|
    ensures var r := Recolored(areas, colors);
      var k := |areas| - 1 - j;
      && r[j].polygon == areas[j].polygon && r[j].name == areas[j].name
      && r[j].color == (if k < |colors| then Some(colors[k]) else None)
  {
  }

  /**
   * Repainting a processed result with the palette it was built from changes nothing
   * when every palette entry it uses is non-empty.
   */
  lemma RecolorWithSamePalette(ps: seq<ZonePolygon>, colors: seq<string>, randoms: seq<string>)
    requires |randoms| >= |ps| && |colors| >= |ps|
    requires forall i :: 0 <= i < |colors| ==> colors[i] != ""
    ensures Recolored(ProcessPolygons(ps, colors, randoms), colors) == ProcessPolygons(ps, colors, randoms)
  {
    var r := ProcessPolygons(ps, colors, randoms);
    var s := Recolored(r, colors);
    forall j | 0 <= j < |r|
      ensures s[j] == r[j]
    {
      RecoloredInPlace(r, colors, j);
    }
  }
}
