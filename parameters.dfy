/**
 * The query-parameter rules of the runtime widget: the travel-time breaks, the
 * interval x repetition ceiling, the validity check and time of day that gate a
 * solve, the solve request itself, the date and time text shown in the form and
 * read back from it, and the "last data update" text taken from the metadata.
 */
module Parameters {
  import opened JsValues
  import opened WidgetTypes

  // ---------------------------------------------------------------------------
  // Breaks

  /**
   * `breaks()`: the thresholds interval, 2*interval, ..., repetition*interval.
   * None models the RangeError `Array(repetition)` throws for an invalid length.
   */
  function Breaks(interval: int, repetition: int): (r: Option<seq<int>>)
    ensures r.Some? <==> 0 <= repetition < MaxArrayLength
    ensures r.Some? ==> |r.value| == repetition
  {
    if 0 <= repetition < MaxArrayLength then
      Some(seq(repetition, k => (k + 1) * interval))
    else None
  }

  /** Every break is a positive multiple of the interval: break k is (k+1) intervals. */
  lemma BreakMultiples(interval: int, repetition: int, k: int)
    requires 0 <= k < repetition < MaxArrayLength
    ensures Breaks(interval, repetition).value[k] == (k + 1) * interval
    ensures Breaks(interval, repetition).value[k] - (if k == 0 then 0 else Breaks(interval, repetition).value[k - 1]) == interval
  {
  }

  /** With a positive interval the breaks are strictly increasing. */
  lemma BreaksIncreasing(interval: int, repetition: int, i: int, j: int)
    requires interval > 0 && 0 <= i < j < repetition < MaxArrayLength
    ensures Breaks(interval, repetition).value[i] < Breaks(interval, repetition).value[j]
  {
    var b := Breaks(interval, repetition).value;
    assert b[i] == (i + 1) * interval && b[j] == (j + 1) * interval;
    MulMonotone(i + 1, j + 1, interval);
  }

  /** The last break is repetition * interval, the longest travel time requested. */
  lemma LastBreak(interval: int, repetition: int)
    requires 0 < repetition < MaxArrayLength
    ensures Breaks(interval, repetition).value[repetition - 1] == repetition * interval
  {
  }

  /** interval 10 and repetition 3 request the breaks 10, 20 and 30. */
  lemma BreaksExample()
    ensures Breaks(10, 3) == Some([10, 20, 30])
  {
    var b := Breaks(10, 3).value;
    assert |b| == 3 && b[0] == 10 && b[1] == 20 && b[2] == 30;
    assert b == [10, 20, 30];
  }

  // ---------------------------------------------------------------------------
  // The interval x repetition ceiling

  /** `Math.ceil(a / b)` for a positive divisor. */
  function CeilDiv(a: int, b: int): (q: int)
    requires b > 0
    ensures (q - 1) * b < a <= q * b
  {
    var f := (-a) / b;
    assert -a == f * b + (-a) % b;
    -f
  }

  /**
   * The recomputation both `handleIntervalChange` and `handleRepetitionChange`
   * apply to the OTHER field once `value` is set: when `current * value` exceeds
   * `maxTravelTime`, the other field becomes
   * `Math.ceil((maxTravelTime / value) / intervalStep) * intervalStep`; otherwise it is
   * kept. An undefined `maxTravelTime` makes the comparison false, so nothing changes,
   * and so does a zero `value`, whose product 0 never exceeds the ceiling. A negative
   * `value` exceeds it only together with a negative `current`, and its negative
   * quotient rounds up towards zero.
   */
  function Rebalanced(current: int, value: int, maxTravelTime: Option<nat>, step: int): (r: int)
    requires step > 0
    ensures !Exceeds(current, value, maxTravelTime) ==> r == current
    ensures Exceeds(current, value, maxTravelTime) ==> value != 0 && r % step == 0
    ensures Exceeds(current, value, maxTravelTime) && value > 0 ==>
      && r >= 0
      && r * value >= maxTravelTime.value
      && (r - step) * value < maxTravelTime.value
    ensures Exceeds(current, value, maxTravelTime) && value < 0 ==>
      && r <= 0
      && r * value <= maxTravelTime.value
      && (r - step) * value > maxTravelTime.value
  {
    if Exceeds(current, value, maxTravelTime) then
      if value > 0 then
        var q := CeilDiv(maxTravelTime.value, value * step);
        ScaledCeiling(maxTravelTime.value, value, step, q);
        q * step
      else
        var q := -(maxTravelTime.value / (-value * step));
        NegativeScaledCeiling(maxTravelTime.value, value, step, q);
        q * step
    else current
  }

  /** The guard `current * value > maxTravelTime` (false when the ceiling is undefined). */
  predicate Exceeds(current: int, value: int, maxTravelTime: Option<nat>) {
    maxTravelTime.Some? && current * value > maxTravelTime.value
  }

  /** The facts about `ceil(m / (value * step)) * step` that `Rebalanced` promises. */
  lemma ScaledCeiling(m: nat, value: int, step: int, q: int)
    requires value > 0 && step > 0
    requires (q - 1) * (value * step) < m <= q * (value * step)
    ensures q * step >= 0 && (q * step) % step == 0
    ensures (q * step) * value >= m && (q * step - step) * value < m
  {
    MulMonotone(0, q, value * step);
    assert (q * step) * value == q * (value * step);
    assert (q * step - step) * value == (q - 1) * (value * step);
    DivModUnique(q * step, step, q, 0);
  }

  /** The facts about `ceil(m / (value * step)) * step` for a negative `value`. */
  lemma NegativeScaledCeiling(m: nat, value: int, step: int, q: int)
    requires value < 0 && step > 0
    requires q == -(m / (-value * step))
    ensures q * step <= 0 && (q * step) % step == 0
    ensures (q * step) * value <= m && (q * step - step) * value > m
  {
    var d := -value * step;
    var f := m / d;
    assert m == f * d + m % d;
    MulMonotone(0, f, step);
    assert (q * step) * value == f * d;
    assert (q * step - step) * value == (f + 1) * d;
    DivModUnique(q * step, step, q, 0);
  }

  /** Multiplying by a positive number keeps the order. */
  lemma MulMonotone(a: int, b: int, d: int)
    requires d > 0
    ensures a <= b ==> a * d <= b * d
    ensures a < b ==> a * d < b * d
  {
    assert b * d - a * d == (b - a) * d;
  }

  /**
   * The recomputed field restores the ceiling only when value * step divides
   * maxTravelTime exactly; in every other case the product still exceeds it.
   */
  lemma RebalancedRestoresCeilingIff(current: int, value: int, maxTravelTime: nat, step: int)
    requires value > 0 && step > 0 && current * value > maxTravelTime
    ensures var r := Rebalanced(current, value, Some(maxTravelTime), step);
      r * value <= maxTravelTime <==> maxTravelTime % (value * step) == 0
  {
    var r := Rebalanced(current, value, Some(maxTravelTime), step);
    var d := value * step;
    var q := r / step;
    assert r == q * step;
    assert r * value == q * d;
    assert (q - 1) * d < maxTravelTime <= q * d;
    if r * value <= maxTravelTime {
      assert maxTravelTime == q * d;
      DivModUnique(maxTravelTime, d, q, 0);
    }
    if maxTravelTime % d == 0 {
      var k := maxTravelTime / d;
      assert maxTravelTime == k * d;
      MulMonotone(k, q - 1, d);
      MulMonotone(q, k, d);
      assert k == q;
    }
  }

  /**
   * A concrete case: with maxTravelTime 60, step 5 and repetition 4, moving the
   * interval to 25 recomputes repetition 5, and 5 * 25 = 125 is still above 60.
   */
  lemma RebalancedOvershootExample()
    ensures Rebalanced(4, 25, Some(60), 5) == 5
    ensures Rebalanced(4, 25, Some(60), 5) * 25 > 60
  {
  }

  // ---------------------------------------------------------------------------
  // Validity and the time of day

  /** `isValid()`: a facility, a usable date (or day-of-week mode), and numeric hours and minutes. */
  predicate IsValid(s: WidgetState) {
    && s.facility.Some?
    && ((s.dateType == OnDate && s.date.Some? && s.date.value.Date?) || s.dateType == OnDayOfWeek)
    && s.hours.Some?
    && s.minutes.Some?
  }

  /** What `timeOfDay()` produces: null, a date, or the TypeError of reading an undefined entry. */
  datatype TimeOfDayResult = NullTime | Time(date: JsDate) | TypeErrorThrown

  /** `x >= 0 ? x : 0`, where a NaN field compares false. */
  function NonNegativeOrZero(x: Option<int>): (r: nat)
    ensures x.Some? && x.value >= 0 ==> r == x.value
    ensures x.None? || x.value < 0 ==> r == 0
  {
    if x.Some? && x.value >= 0 then x.value else 0
  }

  /** The base date's time set to hours:minutes:00.000 (setters on an invalid date keep it invalid). */
  function AtTime(d: JsDate, hours: int, minutes: int): JsDate {
    match d
    case InvalidDate => InvalidDate
    case Date(_, _, _, _, _, _, _) => d.(hours := hours, minutes := minutes, seconds := 0, millis := 0)
  }

  /** `d` is `base` with its time set to hours:minutes:00.000, or invalid like `base`. */
  predicate SetTo(d: JsDate, base: JsDate, hours: int, minutes: int) {
    && (base.InvalidDate? ==> d.InvalidDate?)
    && (base.Date? ==>
      && d.Date?
      && d.year == base.year && d.month == base.month && d.day == base.day
      && d.hours == hours && d.minutes == minutes && d.seconds == 0 && d.millis == 0)
  }

  /**
   * `timeOfDay()`: null when in date mode the date is missing or invalid; otherwise a
   * copy of the chosen date (the state's date, or `daysOfWeek[dayOfWeek]`) with
   * milliseconds and seconds zeroed and minutes and hours taken from the state.
   * An index outside `daysOfWeek` reads `undefined`, and `.getTime()` on it throws.
   */
  function TimeOfDay(s: WidgetState): (r: TimeOfDayResult)
    ensures r == NullTime <==> s.dateType == OnDate && (s.date.None? || s.date.value.InvalidDate?)
    ensures r == TypeErrorThrown <==> s.dateType == OnDayOfWeek && !(0 <= s.dayOfWeek < |s.daysOfWeek|)
    ensures r.Time? && s.dateType == OnDate ==>
      s.date.value.Date? && SetTo(r.date, s.date.value, NonNegativeOrZero(s.hours), NonNegativeOrZero(s.minutes))
    ensures r.Time? && s.dateType == OnDayOfWeek ==>
      && 0 <= s.dayOfWeek < |s.daysOfWeek|
      && SetTo(r.date, s.daysOfWeek[s.dayOfWeek], NonNegativeOrZero(s.hours), NonNegativeOrZero(s.minutes))
  {
    if s.dateType.OnDate? && (s.date.None? || s.date.value.InvalidDate?) then NullTime
    else if s.dateType.OnDate? then
      Time(AtTime(s.date.value, NonNegativeOrZero(s.hours), NonNegativeOrZero(s.minutes)))
    else if 0 <= s.dayOfWeek < |s.daysOfWeek| then
      Time(AtTime(s.daysOfWeek[s.dayOfWeek], NonNegativeOrZero(s.hours), NonNegativeOrZero(s.minutes)))
    else TypeErrorThrown
  }

  /**
   * `isValid()` holds exactly when there is a facility, `timeOfDay()` is not null,
   * and hours and minutes are numbers.
   */
  lemma IsValidIff(s: WidgetState)
    ensures IsValid(s) <==> s.facility.Some? && TimeOfDay(s) != NullTime && s.hours.Some? && s.minutes.Some?
  {
  }

  /**
   * A valid state has a time of day to solve for, as long as in day-of-week mode the
   * index is inside the table; with an index outside it `timeOfDay()` throws although
   * `isValid()` holds.
   */
  lemma ValidStateHasTimeOfDay(s: WidgetState)
    requires IsValid(s)
    ensures s.dateType == OnDate || 0 <= s.dayOfWeek < |s.daysOfWeek| ==> TimeOfDay(s).Time?
    ensures s.dateType == OnDayOfWeek && !(0 <= s.dayOfWeek < |s.daysOfWeek|) ==> TimeOfDay(s) == TypeErrorThrown
    ensures s.dateType == OnDate ==> TimeOfDay(s).date.Date?
  {
  }

  /** In day-of-week mode the calendar date plays no part in validity or in the time of day. */
  lemma DateIgnoredOnDayOfWeek(s: WidgetState, d: Option<JsDate>)
    requires s.dateType == OnDayOfWeek
    ensures IsValid(s.(date := d)) == IsValid(s)
    ensures TimeOfDay(s.(date := d)) == TimeOfDay(s)
  {
  }

  // ---------------------------------------------------------------------------
  // The solve request

  /** The fixed polygon options every solve request carries. */
  datatype PolygonOptions = PolygonOptions(
    outputGeometryPrecision: int,
    outputGeometryPrecisionUnits: string,
    mergeSimilarPolygonRanges: bool,
    useHierarchy: bool,
    overlapPolygons: bool,
    outputPolygons: string,
    splitPolygonsAtBreaks: bool,
    excludeSourcesFromPolygons: seq<string>,
    trimOuterPolygon: bool,
    trimPolygonDistance: int,
    trimPolygonDistanceUnits: string)

  const SolveOptions: PolygonOptions := PolygonOptions(
    0, "meters", false, false, true, "simplified", true, ["LineVariantElements"], true, 200, "meters")

  datatype SolveRequest = SolveRequest(
    travelMode: string,
    impedanceAttribute: string,
    defaultBreaks: seq<int>,
    travelDirection: TravelDirection,
    timeOfDay: Option<JsDate>,
    facility: Option<Feature>,
    options: PolygonOptions)

  /**
   * The parameters `solve()` builds from the state. None: building them throws, because
   * the metadata is null (`travelMode()`), `Array(repetition)` is invalid, `timeOfDay()`
   * throws, or there is no map view to take the spatial reference from.
   */
  function SolveParameters(s: WidgetState, hasMapView: bool): (r: Option<SolveRequest>)
    ensures r.Some? <==>
      s.metadata.Some? && Breaks(s.interval, s.repetition).Some? && TimeOfDay(s) != TypeErrorThrown && hasMapView
  {
    if s.metadata.Some? && Breaks(s.interval, s.repetition).Some? && TimeOfDay(s) != TypeErrorThrown && hasMapView then
      var t := TimeOfDay(s);
      Some(SolveRequest(
        s.metadata.value.defaultTravelMode,
        s.metadata.value.impedance,
        Breaks(s.interval, s.repetition).value,
        s.travelDirection,
        if t.Time? then Some(t.date) else None,
        s.facility,
        SolveOptions))
    else None
  }

  /**
   * A valid state with metadata, a map view, a usable repetition and a usable day
   * yields a request for the facility, with the breaks of its interval and
   * repetition, its time of day, its travel direction and the service's travel mode
   * and impedance.
   */
  lemma ValidStateYieldsRequest(s: WidgetState, hasMapView: bool)
    requires IsValid(s) && s.metadata.Some? && hasMapView && 0 <= s.repetition < MaxArrayLength
    requires s.dateType == OnDate || 0 <= s.dayOfWeek < |s.daysOfWeek|
    ensures var r := SolveParameters(s, hasMapView);
      && r.Some?
      && r.value.facility == s.facility
      && |r.value.defaultBreaks| == s.repetition
      && r.value.defaultBreaks == Breaks(s.interval, s.repetition).value
      && TimeOfDay(s).Time? && r.value.timeOfDay == Some(TimeOfDay(s).date)
      && r.value.travelMode == s.metadata.value.defaultTravelMode
      && r.value.impedanceAttribute == s.metadata.value.impedance
      && r.value.travelDirection == s.travelDirection
  {
    ValidStateHasTimeOfDay(s);
  }

  // ---------------------------------------------------------------------------
  // Date and time text

  /** The date fields a real `Date` object can hold. */
  predicate WellFormedDate(d: JsDate) {
    d.Date? ==>
      && 0 <= d.month < 12 && 1 <= d.day <= 31
      && 0 <= d.hours < 24 && 0 <= d.minutes < 60
      && 0 <= d.seconds < 60 && 0 <= d.millis < 1000
  }

  /**
   * `toLocaleDateString(d)`: "" for a null date; otherwise the year, then month + 1
   * and the day of the month each padded to two characters, joined by '-'. An
   * invalid date formats its NaN fields as "NaN-aN-aN".
   */
  function ToLocaleDateString(d: Option<JsDate>): (r: string)
    ensures d.None? ==> r == ""
    ensures d == Some(InvalidDate) ==> r == "NaN-aN-aN"
  {
    if d.None? then ""
    else if d.value.InvalidDate? then "NaN-aN-aN"
    else DateText(d.value.year, d.value.month, d.value.day)
  }

  /** The text of a real date's fields: `getMonth()` counts from 0, the text from 1. */
  function DateText(year: int, month: int, day: int): string {
    IntToString(year) + "-" + PadTwo(month + 1) + "-" + PadTwo(day)
  }

  /**
   * The text of a real date reads back as `year-MM-DD`: the year's digits (after a
   * minus sign for a negative year), then month + 1 and the day as two digits each.
   */
  lemma DateStringReads(d: JsDate)
    requires d.Date? && WellFormedDate(d)
    ensures d.year >= 0 ==> DateTextReads(ToLocaleDateString(Some(d)), d.year, d.month + 1, d.day)
    ensures d.year < 0 ==>
      var r := ToLocaleDateString(Some(d));
      |r| > 0 && r[0] == '-' && DateTextReads(r[1..], -d.year, d.month + 1, d.day)
  {
    assert ToLocaleDateString(Some(d)) == DateText(d.year, d.month, d.day);
    if d.year >= 0 {
      UnsignedDateText(d.year, d.month, d.day);
    } else {
      SignedDateText(-d.year, d.month, d.day);
    }
  }

  lemma UnsignedDateText(year: nat, month: int, day: int)
    requires 0 <= month < 99 && 0 <= day < 100
    ensures DateTextReads(DateText(year, month, day), year, month + 1, day)
  {
    IntToStringSign(year);
    assert DateText(year, month, day) == NatToString(year) + "-" + PadTwo(month + 1) + "-" + PadTwo(day);
    DateTextParts(year, month + 1, day);
  }

  /** The text of a negative year's date: a minus sign, then the unsigned `year-MM-DD` text. */
  lemma SignedDateText(year: nat, month: int, day: int)
    requires year > 0 && 0 <= month < 99 && 0 <= day < 100
    ensures var r := DateText(-(year as int), month, day);
      |r| > 0 && r[0] == '-' && DateTextReads(r[1..], year, month + 1, day)
  {
    IntToStringSign(-(year as int));
    assert DateText(-(year as int), month, day) == "-" + NatToString(year) + "-" + PadTwo(month + 1) + "-" + PadTwo(day);
    SignedText(NatToString(year), PadTwo(month + 1), PadTwo(day));
    DateTextParts(year, month + 1, day);
  }

  /** A leading sign sits in front of the unsigned `y-m-d` text. */
  lemma SignedText(y: string, m: string, d: string)
    ensures var r := "-" + y + "-" + m + "-" + d;
      |r| > 0 && r[0] == '-' && r[1..] == y + "-" + m + "-" + d
  {
    var r := "-" + y + "-" + m + "-" + d;
    assert r == "-" + (y + "-" + m + "-" + d);
  }

  /** `r` is `year-MM-DD`: the year's digits, then two two-digit fields, read back by `Number()`. */
  predicate DateTextReads(r: string, year: nat, month: int, day: int) {
    var n := |NatToString(year)|;
    && |r| == n + 6
    && AllDigits(r[..n]) && AllDigits(r[n + 1..n + 3]) && AllDigits(r[n + 4..])
    && NumberOf(r[..n]) == Some(year)
    && r[n] == '-' && r[n + 3] == '-'
    && NumberOf(r[n + 1..n + 3]) == Some(month)
    && NumberOf(r[n + 4..]) == Some(day)
  }

  lemma DateTextParts(year: nat, month: int, day: int)
    requires 0 <= month < 100 && 0 <= day < 100
    ensures DateTextReads(NatToString(year) + "-" + PadTwo(month) + "-" + PadTwo(day), year, month, day)
  {
    PadTwoReads(month);
    PadTwoReads(day);
    YearTextReads(year);
    DateTextOf(NatToString(year), PadTwo(month), PadTwo(day), year, month, day);
  }

  /** `y-m-d` reads back field by field once each field reads back on its own. */
  lemma DateTextOf(y: string, m: string, d: string, year: nat, month: int, day: int)
    requires |y| == |NatToString(year)| && AllDigits(y) && NumberOf(y) == Some(year)
    requires |m| == 2 && AllDigits(m) && NumberOf(m) == Some(month)
    requires |d| == 2 && AllDigits(d) && NumberOf(d) == Some(day)
    ensures DateTextReads(y + "-" + m + "-" + d, year, month, day)
  {
    DashedParts(y, m, d);
  }

  lemma YearTextReads(year: nat)
    ensures NumberOf(NatToString(year)) == Some(year)
  {
    NatToStringRoundTrip(year);
  }

  lemma PadTwoReads(n: int)
    requires 0 <= n < 100
    ensures |PadTwo(n)| == 2 && AllDigits(PadTwo(n)) && NumberOf(PadTwo(n)) == Some(n)
  {
    PadTwoValue(n);
  }

  /** The three fields of `y-mm-dd` sit at fixed offsets after the year. */
  lemma DashedParts(y: string, m: string, d: string)
    requires |m| == 2 && |d| == 2
    ensures var r := y + "-" + m + "-" + d;
      && |r| == |y| + 6 && r[..|y|] == y && r[|y|] == '-' && r[|y| + 3] == '-'
      && r[|y| + 1..|y| + 3] == m && r[|y| + 4..] == d
  {
    var r := y + "-" + m + "-" + d;
    assert r == (y + "-") + m + ("-" + d);
    MiddleSlice(y + "-", m, "-" + d);
  }

  /** The middle part of a three-part concatenation is found at its offset. */
  lemma MiddleSlice<T>(a: seq<T>, b: seq<T>, c: seq<T>)
    ensures (a + b + c)[|a|..|a| + |b|] == b
  {
  }

  /** The pieces of `a + sep + b` can be read back by position. */
  lemma JoinedParts(a: string, sep: string, b: string)
    requires |sep| == 1
    ensures var r := a + sep + b;
      |r| == |a| + 1 + |b| && r[..|a|] == a && r[|a|] == sep[0] && r[|a| + 1..] == b
  {
  }

  /**
   * `toLocaleTimeString(hours, minutes)`: "HH:MM", each part the last two digits of
   * the zero-padded number, or "" when either is negative or NaN.
   */
  function ToLocaleTimeString(hours: Option<int>, minutes: Option<int>): (r: string)
    ensures r == "" <==> !(hours.Some? && minutes.Some? && hours.value >= 0 && minutes.value >= 0)
    ensures r != "" ==>
      && |r| == 5 && r[2] == ':'
      && AllDigits(r[..2]) && AllDigits(r[3..])
      && NumberOf(r[..2]) == Some(hours.value % 100)
      && NumberOf(r[3..]) == Some(minutes.value % 100)
  {
    if hours.Some? && minutes.Some? && hours.value >= 0 && minutes.value >= 0 then
      PadTwoValue(hours.value);
      PadTwoValue(minutes.value);
      JoinedParts(PadTwo(hours.value), ":", PadTwo(minutes.value));
      PadTwo(hours.value) + ":" + PadTwo(minutes.value)
    else ""
  }

  /**
   * `handleTimeChange`: the input's value split at ':' into the hours and minutes
   * strings, each read as a number (None for NaN or a missing part); an empty value
   * gives no parts at all.
   */
  function TimeInput(value: string): (r: (Option<int>, Option<int>))
    ensures value == "" ==> r == (None, None)
  {
    if value == "" then (None, None)
    else
      var parts := Split(value, ':');
      (NumberOf(parts[0]), if |parts| > 1 then NumberOf(parts[1]) else None)
  }

  /**
   * The time field shows `toLocaleTimeString(hours, minutes)` and reads it back with
   * `handleTimeChange` on blur: the state then holds the last two digits of each.
   */
  lemma {:induction false} TimeFieldRoundTrip(hours: nat, minutes: nat)
    ensures TimeInput(ToLocaleTimeString(Some(hours), Some(minutes))) == (Some(hours % 100), Some(minutes % 100))
  {
    PadTwoValue(hours);
    PadTwoValue(minutes);
    var a, b := PadTwo(hours), PadTwo(minutes);
    assert ':' !in a && ':' !in b by {
      assert !IsDigit(':');
    }
    SplitJoined(a, b, ':');
    assert ToLocaleTimeString(Some(hours), Some(minutes)) == a + [':'] + b;
  }

  /** Padding a number and reading it back keeps its last two digits. */
  lemma PadTwoValue(n: int)
    requires n >= 0
    ensures |PadTwo(n)| == 2 && AllDigits(PadTwo(n)) && NumberOf(PadTwo(n)) == Some(n % 100)
  {
    var tens, units := n / 10 % 10, n % 10;
    PadTwoDigits(n);
    TwoDigitsValue(tens, units);
    LastTwoDigitsValue(n);
  }

  lemma LastTwoDigitsValue(n: int)
    requires n >= 0
    ensures n % 100 == (n / 10 % 10) * 10 + n % 10
  {
    var q := n / 10;
    assert n == 10 * q + n % 10;
    assert q == 10 * (q / 10) + q % 10;
    assert n == 100 * (q / 10) + ((q % 10) * 10 + n % 10);
    DivModUnique(n, 100, q / 10, (q % 10) * 10 + n % 10);
  }

  lemma DivModUnique(n: int, d: int, q: int, r: int)
    requires d > 0 && 0 <= r < d && n == d * q + r
    ensures n % d == r
  {
    var q' := n / d;
    assert n == d * q' + n % d;
    MulMonotone(q', q - 1, d);
    MulMonotone(q + 1, q', d);
    assert q' == q;
  }

  // ---------------------------------------------------------------------------
  // Last data update

  /**
   * `gtfsTime()`: characters 2 to 12 of the first travel mode's description (the
   * text the widget then parses as a date), or null without metadata or modes.
   */
  function GtfsTime(metadata: Option<Metadata>): (r: Option<string>)
    ensures r.Some? <==>
      metadata.Some? && metadata.value.supportedTravelModes.Some? && |metadata.value.supportedTravelModes.value| > 0
    ensures r.Some? ==>
      var description := metadata.value.supportedTravelModes.value[0].description;
      && |r.value| <= 10
      && (|description| >= 12 ==> r.value == description[2..12])
      && (2 <= |description| < 12 ==> r.value == description[2..])
      && (|description| < 2 ==> r.value == "")
  {
    var modes := if metadata.Some? then metadata.value.supportedTravelModes else None;
    if modes.Some? && |modes.value| > 0 then Some(Substring(modes.value[0].description, 2, 12))
    else None
  }
}
