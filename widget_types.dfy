/**
 * The values the runtime widget works with: its status, the query inputs,
 * the facility, the solver's polygons, the service metadata, and the React
 * state record that holds them.
 */
module WidgetTypes {
  import opened JsValues
  import opened ConfigTypes

  /** The widget's status. `Disabled` is part of the declared type but no code path sets it. */
  datatype Status = Ready | Loading | Disabled | Error | Info

  /** Whether the query's day comes from a calendar date or from a day of the week. */
  datatype DateType = OnDate | OnDayOfWeek

  datatype TravelDirection = FromFacility | ToFacility

  /**
   * A JavaScript `Date`: either an invalid date (its time value is NaN) or a
   * local date-time with JavaScript's zero-based month.
   */
  datatype JsDate =
    | InvalidDate
    | Date(year: int, month: int, day: int, hours: int, minutes: int, seconds: int, millis: int)

  /** A map location; the geometry is opaque to the widget. */
  datatype Point = Point(x: int, y: int)

  /** A point feature returned by the search provider, possibly with a display name. */
  datatype Feature = Feature(location: Point, name: Option<string>)

  /** One polygon of a solve result, with its break range in minutes. */
  datatype ZonePolygon = ZonePolygon(ring: nat, fromBreak: int, toBreak: int)

  /**
   * A polygon prepared for display: its label and the colour its fill symbol was
   * built from (None: built from `undefined`, when the palette has no entry).
   */
  datatype ServiceArea = ServiceArea(polygon: ZonePolygon, name: string, color: Option<string>)

  datatype TravelModeInfo = TravelModeInfo(description: string)

  /** The parts of the service's JSON description the widget reads. */
  datatype Metadata = Metadata(
    layerType: string,
    defaultTravelMode: string,
    impedance: string,
    supportedTravelModes: Option<seq<TravelModeInfo>>)

  /** The widget's React state. `hours` and `minutes` are None when they read as NaN. */
  datatype WidgetState = WidgetState(
    status: Status,
    message: Option<string>,
    dateType: DateType,
    travelDirection: TravelDirection,
    date: Option<JsDate>,
    hours: Option<int>,
    minutes: Option<int>,
    daysOfWeek: seq<JsDate>,
    dayOfWeek: int,
    interval: int,
    repetition: int,
    facility: Option<Feature>,
    serviceAreas: Option<seq<ServiceArea>>,
    metadata: Option<Metadata>,
    isSearchFocus: bool)

  /** The props the framework passes to the widget. */
  datatype Props = Props(config: Config, useMapWidgetIds: Option<seq<string>>)
}
