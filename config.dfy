/**
 * The widget's configuration record, as the settings panel stores it.
 */
module ConfigTypes {
  import opened JsValues

  /**
   * The fields of the configuration interface, plus `maxTravelTime`: the
   * runtime reads that field for the interval x repetition ceiling, but the
   * interface never declares it, so in a stored configuration it is normally
   * absent (None), which in JavaScript reads as `undefined`.
   */
  datatype Config = Config(
    serviceAreaUrl: string,
    colors: seq<string>,
    resultColor: string,
    facilityColor: string,
    interval: int,
    intervalMin: int,
    intervalMax: int,
    intervalStep: int,
    repetition: int,
    repetitionMin: int,
    repetitionMax: int,
    dayOfWeek: int,
    maxTravelTime: Option<nat>)

  /**
   * Colours drawn by `randomHexColor()`: each is `#` followed by hexadecimal text,
   * so never the empty (falsy) string. The draw itself is random and not modelled.
   */
  predicate RandomColors(randoms: seq<string>) {
    forall i :: 0 <= i < |randoms| ==> |randoms[i]| > 0 && randoms[i][0] == '#'
  }
}
