/**
 * The widget's settings panel. Its handlers build a new configuration from the
 * current one and hand it to the builder (`onSettingChange`); the only state the
 * panel keeps is whether a map widget is selected.
 */
module SettingPanel {
  import opened JsValues
  import opened ConfigTypes

  /** A palette entry is usable when it is truthy: present and not the empty string. */
  predicate Truthy(colors: seq<string>, i: int) {
    0 <= i < |colors| && colors[i] != ""
  }

  /**
   * The colour array of `handleRepetitionMaxChange(value)`: one entry per index below
   * `value`, the old colour where it is truthy, else a fresh random colour.
   */
  function ResizedPalette(colors: seq<string>, value: nat, randoms: seq<string>): (r: seq<string>)
    requires |randoms| >= value
    ensures |r| == value
  {
    seq(value, i requires 0 <= i < value => if Truthy(colors, i) then colors[i] else randoms[i])
  }

  /**
   * `handleRepetitionMaxChange(value)`: the configuration with the resized palette and
   * the new `repetitionMax`; None when `Array(value)` throws.
   */
  function RepetitionMaxChanged(config: Config, value: int, randoms: seq<string>): (r: Option<Config>)
    requires 0 <= value < MaxArrayLength ==> |randoms| >= value
    ensures r.Some? <==> 0 <= value < MaxArrayLength
    ensures r.Some? ==> r.value.colors == ResizedPalette(config.colors, value, randoms)
  {
    if 0 <= value < MaxArrayLength then
      Some(config.(colors := ResizedPalette(config.colors, value, randoms), repetitionMax := value))
    else None
  }

  /** `componentDidMount`: resize the palette to the configured `repetitionMax`. */
  function Mounted(config: Config, randoms: seq<string>): (r: Option<Config>)
    requires 0 <= config.repetitionMax < MaxArrayLength ==> |randoms| >= config.repetitionMax
    ensures r.Some? <==> 0 <= config.repetitionMax < MaxArrayLength
  {
    RepetitionMaxChanged(config, config.repetitionMax, randoms)
  }

  /** `handleResultColorChange(color, index)`: position `index` takes the new colour. */
  function ResultColorChanged(config: Config, color: string, index: int): (r: Config)
    ensures |r.colors| == |config.colors|
  {
    config.(colors := seq(|config.colors|, i requires 0 <= i < |config.colors| =>
      if index != i then config.colors[i] else color))
  }

  /** `handleServiceAreaUrlChange`: the text of the URL input becomes the service URL. */
  function ServiceAreaUrlChanged(config: Config, url: string): (r: Config)
    ensures r.serviceAreaUrl == url
    ensures r.(serviceAreaUrl := config.serviceAreaUrl) == config
  {
    config.(serviceAreaUrl := url)
  }

  /** `handleFacilityColorChange`: the picked colour becomes the facility colour. */
  function FacilityColorChanged(config: Config, color: string): (r: Config)
    ensures r.facilityColor == color
    ensures r.(facilityColor := config.facilityColor) == config
  {
    config.(facilityColor := color)
  }

  /** Whether at least one map widget is selected. */
  predicate HasMapWidget(useMapWidgetIds: Option<seq<string>>) {
    useMapWidgetIds.Some? && |useMapWidgetIds.value| > 0
  }

  /** What a handler passes to `onSettingChange`. */
  datatype SettingChange =
    | ConfigChange(config: Config)
    | MapWidgetsChange(useMapWidgetIds: Option<seq<string>>)

  class Setting {
    var hasMapWidget: bool

    constructor(useMapWidgetIds: Option<seq<string>>)
      ensures hasMapWidget == HasMapWidget(useMapWidgetIds)
    {
      hasMapWidget := useMapWidgetIds.Some? && |useMapWidgetIds.value| > 0;
    }

    /** `handleMapWidgetChange`: record whether a map is selected and pass the selection on. */
    method HandleMapWidgetChange(useMapWidgetIds: Option<seq<string>>) returns (change: SettingChange)
      modifies this
      ensures hasMapWidget == HasMapWidget(useMapWidgetIds)
      ensures change == MapWidgetsChange(useMapWidgetIds)
    {
      hasMapWidget := useMapWidgetIds.Some? && |useMapWidgetIds.value| > 0;
      change := MapWidgetsChange(useMapWidgetIds);
    }
  }

  // ---------------------------------------------------------------------------
  // Properties of the palette updates

  /**
   * The resized palette has exactly `value` entries; every truthy old colour below
   * `value` is kept, every other position gets its random colour, and no entry is
   * falsy afterwards.
   */
  lemma ResizedPaletteEntries(colors: seq<string>, value: nat, randoms: seq<string>)
    requires |randoms| >= value && RandomColors(randoms)
    ensures var r := ResizedPalette(colors, value, randoms);
      && |r| == value
      && (forall i :: 0 <= i < value && Truthy(colors, i) ==> r[i] == colors[i])
      && (forall i :: 0 <= i < value && !Truthy(colors, i) ==> r[i] == randoms[i])
      && (forall i :: 0 <= i < value ==> Truthy(r, i))
  {
    var r := ResizedPalette(colors, value, randoms);
    forall i | 0 <= i < value
      ensures Truthy(r, i)
    {
      if !Truthy(colors, i) {
        assert r[i] == randoms[i] && |randoms[i]| > 0;
      }
    }
  }

  /**
   * The change sets `repetitionMax` and `colors` and leaves every other field of
   * the configuration as it was.
   */
  lemma RepetitionMaxChangedFields(config: Config, value: int, randoms: seq<string>)
    requires 0 <= value < MaxArrayLength && |randoms| >= value
    ensures var r := RepetitionMaxChanged(config, value, randoms).value;
      && r.repetitionMax == value && |r.colors| == value
      && r.(colors := config.colors, repetitionMax := config.repetitionMax) == config
  {
  }

  /** Shrinking the palette keeps its first `value` truthy entries in place. */
  lemma ShrinkKeepsPrefix(colors: seq<string>, value: nat, randoms: seq<string>)
    requires |randoms| >= value && value <= |colors|
    requires forall i :: 0 <= i < |colors| ==> colors[i] != ""
    ensures ResizedPalette(colors, value, randoms) == colors[..value]
  {
  }

  /**
   * Resizing twice to the same length changes nothing the second time, whatever
   * colours the second call would draw: after the first call every entry is truthy.
   */
  lemma ResizeIdempotent(colors: seq<string>, value: nat, randoms: seq<string>, randoms2: seq<string>)
    requires |randoms| >= value && |randoms2| >= value && RandomColors(randoms)
    ensures var once := ResizedPalette(colors, value, randoms);
      ResizedPalette(once, value, randoms2) == once
  {
    var once := ResizedPalette(colors, value, randoms);
    ResizedPaletteEntries(colors, value, randoms);
    var twice := ResizedPalette(once, value, randoms2);
    forall i | 0 <= i < value
      ensures twice[i] == once[i]
    {
      assert Truthy(once, i);
    }
  }

  /**
   * The normalisation of `componentDidMount` is stable: mounting again on the
   * configuration it produced yields that same configuration.
   */
  lemma MountedStable(config: Config, randoms: seq<string>, randoms2: seq<string>)
    requires 0 <= config.repetitionMax < MaxArrayLength
    requires |randoms| >= config.repetitionMax && |randoms2| >= config.repetitionMax
    requires RandomColors(randoms)
    ensures var once := Mounted(config, randoms).value;
      Mounted(once, randoms2) == Some(once)
  {
    ResizeIdempotent(config.colors, config.repetitionMax, randoms, randoms2);
  }

  /**
   * Replacing one colour keeps the length, puts the colour at `index` and nothing
   * else anywhere; an index outside the palette changes nothing.
   */
  lemma ResultColorChangedEntries(config: Config, color: string, index: int)
    ensures var r := ResultColorChanged(config, color, index);
      && r.(colors := config.colors) == config
      && (0 <= index < |config.colors| ==> r.colors[index] == color)
      && (forall i :: 0 <= i < |config.colors| && i != index ==> r.colors[i] == config.colors[i])
      && (!(0 <= index < |config.colors|) ==> r == config)
  {
    var r := ResultColorChanged(config, color, index);
    if !(0 <= index < |config.colors|) {
      assert r.colors == config.colors;
    }
  }

  /** Setting the same colour again at the same index is idempotent. */
  lemma ResultColorChangedIdempotent(config: Config, color: string, index: int)
    ensures ResultColorChanged(ResultColorChanged(config, color, index), color, index)
      == ResultColorChanged(config, color, index)
  {
    var once := ResultColorChanged(config, color, index);
    var twice := ResultColorChanged(once, color, index);
    assert twice.colors == once.colors;
  }
}
