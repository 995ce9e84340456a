# Service Area widget — a Dafny model

This project models the core of the Experience Builder "Service Area" widget. The
widget lets a user pick a facility on a map, choose a date (or a day of the week),
a time, a travel direction, a travel-time interval and a number of repetitions. It
then asks an ArcGIS network-analysis service for the service-area polygons: the
zones reachable from (or to) the facility within each travel-time break. The
polygons are drawn in the colours configured in the widget's settings panel.

The model covers two components:

- The runtime widget (`src/runtime/widget.tsx`). Its React state is the datatype
  `WidgetState`, held in the field `state` of the class `WidgetRuntime.Widget`.
  The class's other fields are the instance fields the component assigns
  directly:
  - whether a map view is attached;
  - the service-area task, recorded by the URL it was created for;
  - the two abort controllers.

  Network requests are numbered. `Solve` and `CreateServiceAreaTask` issue a
  request. Its settlement arrives later, in any order, as one of the methods
  `SolveResolved`, `SolveRejected`, `InitResolved` or `InitRejected`. This is how
  the model states which late or superseded answers the abort guards ignore
  (module `WidgetScenarios`).
- The settings panel (`src/setting/setting.tsx`). Each of its handlers builds a
  new configuration from the current one (module `SettingPanel`). Its one piece of
  state, whether a map widget is selected, is the class `SettingPanel.Setting`.

The pure rules behind the runtime widget have their own modules:

- `Parameters`: the breaks, the interval × repetition ceiling, `isValid`,
  `timeOfDay`, the solve request, and the date and time text.
- `SolveResults`: sorting, colouring, labelling and reversing the solver's polygons.
- `FacilitySearch`: how search events choose the facility.
- `JsValues`: the JavaScript value semantics the widget relies on. This covers
  null, `String(n)`, `Number(s)`, `slice(-2)`, `substring`, `split`, and the
  RangeError of `Array(n)`.

The model follows the code in these cases:

- A non-null but empty polygon list is a ready, empty result. Only a missing list
  gives the "Empty solve result" message.
- The solve request excludes the source "LineVariantElements" from the polygons.
- The status "disabled" is declared but never set.
- Recomputing the repetition or interval after a change does not always restore
  the interval × repetition ceiling.
- In a search, within a source the last candidate with a feature wins. Across
  sources the last non-empty source decides, even when its choice is null.

## Model

| member | source | states |
|---|---|---|
| JsValues.NumberOf | src/runtime/widget.tsx:1173-1177 | `Number()` on a string of decimal digits is that string's decimal value |
| JsValues.LastTwo | src/runtime/widget.tsx:112-116 | `slice(-2)` keeps the last two characters, or the whole string when it is shorter |
| JsValues.Substring | src/runtime/widget.tsx:804-806 | `substring(start, end)` within the bounds is the slice `s[start..end]`, and is never longer than `s` |
| JsValues.NatToStringRoundTrip | src/runtime/widget.tsx:102-110 | reading the decimal text of `n` back with `Number()` gives `n` |
| JsValues.PadTwoDigits | src/runtime/widget.tsx:112-116 | `("0" + n).slice(-2)` is the tens digit followed by the units digit of `n` |
| JsValues.SplitJoined | src/runtime/widget.tsx:1179-1188 | splitting `a:b` at ':' recovers `a` and `b` when neither holds a ':' |
| Parameters.Breaks | src/runtime/widget.tsx:822-829 | one break per repetition; the result is None (RangeError) exactly when `Array(repetition)` rejects the length |
| Parameters.BreakMultiples | src/runtime/widget.tsx:822-829 | break k is (k+1) intervals, and consecutive breaks are one interval apart |
| Parameters.BreaksIncreasing | src/runtime/widget.tsx:822-829 | with a positive interval the breaks strictly increase |
| Parameters.LastBreak | src/runtime/widget.tsx:822-829 | the last break is repetition × interval, the longest travel time requested |
| Parameters.BreaksExample | src/runtime/widget.tsx:822-829 | interval 10 and repetition 3 request the breaks 10, 20, 30 |
| Parameters.CeilDiv | src/runtime/widget.tsx:1199 | `Math.ceil(a / b)` is the least q with a <= q × b |
| Parameters.Rebalanced | src/runtime/widget.tsx:1190-1204 | without an overshoot the other field is kept. With one, the new value is non-zero and the field becomes a multiple of the step: for a positive value the least non-negative one whose product with the value reaches maxTravelTime, for a negative value (where `Math.ceil` of a negative ratio rounds toward zero) the largest non-positive one whose product stays within it |
| Parameters.RebalancedRestoresCeilingIff | src/runtime/widget.tsx:1198-1203 | after an overshoot the recomputed product is within maxTravelTime if and only if value × step divides maxTravelTime |
| Parameters.RebalancedOvershootExample | src/runtime/widget.tsx:1190-1204 | maxTravelTime 60, step 5, repetition 4: interval 25 recomputes repetition 5, and 125 still exceeds 60 |
| Parameters.NonNegativeOrZero | src/runtime/widget.tsx:844-845 | a negative or NaN hour or minute is replaced by 0 |
| Parameters.TimeOfDay | src/runtime/widget.tsx:831-848 | null exactly for a missing or invalid date in date mode; a TypeError exactly for a day index outside the table. Otherwise it is the chosen day with the state's hours and minutes and zero seconds |
| Parameters.IsValidIff | src/runtime/widget.tsx:850-860 | `isValid()` holds iff there is a facility, `timeOfDay()` is not null, and hours and minutes are numbers |
| Parameters.ValidStateHasTimeOfDay | src/runtime/widget.tsx:831-860 | a valid state has a time of day, except in day-of-week mode with an index outside the table, where `timeOfDay()` throws |
| Parameters.DateIgnoredOnDayOfWeek | src/runtime/widget.tsx:850-860 | in day-of-week mode the calendar date affects neither validity nor the time of day |
| Parameters.SolveParameters | src/runtime/widget.tsx:567-589 | building the parameters succeeds iff there is metadata, a valid break count, a readable day and a map view |
| Parameters.ValidStateYieldsRequest | src/runtime/widget.tsx:567-589 | a valid state with metadata, a map view and a usable day yields a request for its facility, with exactly the breaks of its interval and repetition, its own time of day, its travel direction, and the service's travel mode and impedance |
| Parameters.ToLocaleDateString | src/runtime/widget.tsx:102-110 | null gives "" and an invalid date gives "NaN-aN-aN" |
| Parameters.DateStringReads | src/runtime/widget.tsx:102-110 | a real date's text is `year-MM-DD`, whose three digit-only fields read back with `Number()` as the year, month + 1 and the day; a negative year puts a minus sign in front of the text of its magnitude |
| Parameters.SignedDateText | src/runtime/widget.tsx:102-110 | the text of a date with a negative year is '-' followed by the unsigned `year-MM-DD` text of its magnitude |
| JsValues.IntToStringSign | src/runtime/widget.tsx:102-110 | `String(n)` of a negative n is a minus sign before the digits of -n; of a non-negative n it is its digits |
| Parameters.DateTextParts | src/runtime/widget.tsx:102-110 | the padded `year-MM-DD` text reads back field by field |
| Parameters.ToLocaleTimeString | src/runtime/widget.tsx:112-116 | "" iff either part is negative or NaN; otherwise "HH:MM", whose two fields are digits only and read back as the last two digits of each part |
| Parameters.TimeInput | src/runtime/widget.tsx:1179-1188 | an empty time input gives no hours and no minutes |
| Parameters.TimeFieldRoundTrip | src/runtime/widget.tsx:1179-1188 | reading back the displayed time text gives the last two digits of the hours and of the minutes |
| Parameters.PadTwoValue | src/runtime/widget.tsx:112-116 | the padded text has two digits and reads back as `n % 100` |
| Parameters.GtfsTime | src/runtime/widget.tsx:800-810 | the text is present iff there is a travel mode; it is characters 2 to 12 of the first mode's description, and "" when the description is shorter than two characters |
| SolveResults.Insert | src/runtime/widget.tsx:605-609 | inserting into a sorted list gives a sorted list with the same elements plus one |
| SolveResults.SortByToBreak | src/runtime/widget.tsx:605-609 | the sorted polygons are in ascending ToBreak order and are a permutation of the input |
| SolveResults.ColorAt | src/runtime/widget.tsx:610-618 | a polygon gets the palette entry at its position when that entry is truthy, else its random colour |
| SolveResults.Styled | src/runtime/widget.tsx:610-623 | each polygon keeps its place and gets its label and its colour |
| SolveResults.ReversePermutes | src/runtime/widget.tsx:624 | `reverse()` keeps every polygon with its multiplicity |
| SolveResults.ProcessedIsDescendingPermutation | src/runtime/widget.tsx:603-628 | the displayed result holds exactly the solver's polygons, in descending ToBreak order |
| SolveResults.ProcessedColorsAndLabels | src/runtime/widget.tsx:610-624 | the k-th polygon from the end is the k-th in ascending order, labelled "from - to min" and coloured from palette entry k or its random fallback |
| SolveResults.ProcessedEmpty | src/runtime/widget.tsx:603-628 | an empty, non-null polygon list is processed into an empty result |
| SolveResults.ProcessedColorsTruthy | src/runtime/widget.tsx:610-618 | every displayed polygon gets a non-empty colour |
| SolveResults.StyledColorsTruthy | src/runtime/widget.tsx:610-618 | in ascending order, every polygon gets a non-empty colour: a truthy palette entry or a random colour |
| SolveResults.Recolored | src/runtime/widget.tsx:1222-1237 | repainting keeps the number of areas |
| SolveResults.RecoloredInPlace | src/runtime/widget.tsx:1222-1237 | repainting keeps every polygon and label in place and gives the k-th area from the end the palette entry k (undefined past the palette) |
| SolveResults.RecolorWithSamePalette | src/runtime/widget.tsx:1222-1237 | repainting a result with the full palette it was built from changes nothing |
| FacilitySearch.PickInSource | src/runtime/widget.tsx:982-987 | a chosen feature is the feature of one of the source's candidates |
| FacilitySearch.SearchComplete | src/runtime/widget.tsx:975-1000 | no results clears the facility; otherwise the handler throws iff the folded choice is null, and otherwise sets exactly that choice |
| FacilitySearch.SearchResultPicked | src/runtime/widget.tsx:1002-1013 | the picked feature, renamed after the result, becomes the facility; a result without a feature throws |
| FacilitySearch.PickInSourceIsLast | src/runtime/widget.tsx:982-987 | within a source the last candidate with a feature wins; the choice is null iff no candidate has one |
| FacilitySearch.PickAcrossSourcesIsLastNonEmpty | src/runtime/widget.tsx:980-989 | the last source with a non-empty list decides; the choice is null when no source has one |
| FacilitySearch.LaterFeaturelessSourceThrows | src/runtime/widget.tsx:980-996 | a later source without features resets the choice, so the event throws although an earlier source had a feature |
| WidgetRuntime.Abort | src/runtime/widget.tsx:565-567 | aborting marks the controller aborted and keeps it in place; null stays null |
| WidgetRuntime.AbortGuardsDiffer | src/runtime/widget.tsx:638-651 | the solve guard tests the error's name and the metadata guard its message, so an ordinary abort is swallowed by one and reported by the other; both need a live controller |
| WidgetRuntime.DaysOfWeek | src/runtime/widget.tsx:168-170 | the reference week is 1 to 7 January 1990 at midnight |
| WidgetRuntime.RenderedView | src/runtime/widget.tsx:273-297 | the form is shown iff exactly one map is selected and the task is configured; otherwise the missing-map placeholder comes first |
| WidgetRuntime.QueryChangedIff | src/runtime/widget.tsx:256-270 | the query is unchanged iff the two states differ at most in status, message, daysOfWeek, serviceAreas, metadata and isSearchFocus |
| WidgetRuntime.ContextLost | src/runtime/widget.tsx:938-943 | a lost map context leaves the state ready, with no facility, no result and no message, and changes nothing else |
| WidgetRuntime.Widget.constructor | src/runtime/widget.tsx:159-177 | the initial state is loading, today's date and time, the reference week, and the configured day, interval and repetition; no task or controllers |
| WidgetRuntime.Widget.Clear | src/runtime/widget.tsx:551-562 | drops the solve controller and clears the result, status and message |
| WidgetRuntime.Widget.Solve | src/runtime/widget.tsx:564-597 | the previous controller is aborted first. When the parameters throw, that aborted controller stays and the state is untouched. Otherwise a fresh controller guards the new request and the widget is loading |
| WidgetRuntime.Widget.SolveResolved | src/runtime/widget.tsx:599-637 | any settled request shows its processed polygons as ready, or the empty-result info message for a null list, and drops the current controller |
| WidgetRuntime.Widget.SolveRejected | src/runtime/widget.tsx:638-651 | ignored iff the error is named AbortError and the current controller is live; otherwise the message is shown as info |
| WidgetRuntime.Widget.CreateServiceAreaTask | src/runtime/widget.tsx:654-677 | drops the old metadata controller and task, shows loading, and issues a request for the configured URL under a fresh controller |
| WidgetRuntime.Widget.InitResolved | src/runtime/widget.tsx:678-690 | a non-service-area layer shows "Incorrect Service Area URL" as an error; otherwise the task is created for the URL the request captured and the widget is ready |
| WidgetRuntime.Widget.InitRejected | src/runtime/widget.tsx:691-704 | ignored iff the error's message is AbortError and a controller is current; otherwise the message is shown as an error |
| WidgetRuntime.Widget.HandleIntervalChange | src/runtime/widget.tsx:1190-1204 | sets the interval and rebalances the repetition against maxTravelTime |
| WidgetRuntime.Widget.HandleRepetitionChange | src/runtime/widget.tsx:1206-1220 | sets the repetition and rebalances the interval against maxTravelTime |
| WidgetRuntime.Widget.HandleResultColorsChange | src/runtime/widget.tsx:1222-1237 | a non-empty result is repainted with the new palette; otherwise nothing changes |
| WidgetRuntime.Widget.HandleTravelDirectionChange | src/runtime/widget.tsx:1151-1156 | only the travel direction changes |
| WidgetRuntime.Widget.HandleDateTypeChange | src/runtime/widget.tsx:1158-1162 | only the date type changes |
| WidgetRuntime.Widget.HandleDateChange | src/runtime/widget.tsx:1164-1171 | an empty input clears the date; otherwise the parsed date is stored |
| WidgetRuntime.Widget.HandleDayOfWeekChange | src/runtime/widget.tsx:1173-1177 | only the day-of-week index changes |
| WidgetRuntime.Widget.HandleTimeChange | src/runtime/widget.tsx:1179-1188 | hours and minutes become the two parts of the time input |
| WidgetRuntime.Widget.HandleSearchComplete | src/runtime/widget.tsx:975-1000 | throws and changes nothing iff the search outcome is a throw; otherwise only the facility changes |
| WidgetRuntime.Widget.HandleSearchResult | src/runtime/widget.tsx:1002-1013 | throws iff the result has no feature; otherwise only the facility changes |
| WidgetRuntime.Widget.HandleSearchClear | src/runtime/widget.tsx:1015-1020 | the facility is cleared |
| WidgetRuntime.Widget.HandleSearchFocus | src/runtime/widget.tsx:1022-1031 | throws iff no map view is attached; otherwise the search is focused |
| WidgetRuntime.Widget.HandleSearchBlur | src/runtime/widget.tsx:1033-1042 | the search loses its focus |
| WidgetRuntime.Widget.HandleUseMapWidgetIdsChange | src/runtime/widget.tsx:928-945 | an empty or missing selection drops the map view and resets the state. This handler does not abort the solve in flight; the `clear()` of the next `componentDidUpdate` does |
| WidgetRuntime.Widget.HandleActiveViewChange | src/runtime/widget.tsx:947-973 | an attached view is dropped and the state reset; then the new view, if any, is attached |
| WidgetRuntime.Widget.ReceiveProps | src/runtime/widget.tsx:118 | the framework replaces the props and nothing else |
| WidgetRuntime.Widget.ComponentDidMount | src/runtime/widget.tsx:199-201 | mounting requests the metadata of the configured URL under a fresh request number; the task is unknown until it answers, and the props, the map view and the solve bookkeeping are unchanged |
| WidgetRuntime.Widget.QueryUpdate | src/runtime/widget.tsx:256-270 | a changed query solves a valid state and clears an invalid one; an unchanged query changes nothing. Each branch states the abort controller, the pending solves and the request counter: a new solve replaces the controller with a fresh one under the next request number, a clear drops the controller, and a failed request build aborts the controller and issues nothing |
| WidgetRuntime.Widget.ComponentDidUpdate | src/runtime/widget.tsx:224-271 | a new service URL leaves a request pending for it and no task; the same URL keeps the task and its metadata |
| WidgetScenarios.SolveParametersIgnoreDisplay | src/runtime/widget.tsx:567-595 | the solve parameters do not depend on the result, status or message that `solve()` writes |
| WidgetScenarios.SupersededSolveAbortIsIgnored | src/runtime/widget.tsx:638-645 | the first request's AbortError meets the second, live controller and is ignored; the widget keeps loading |
| WidgetScenarios.ClearedSolveAbortShowsInfo | src/runtime/widget.tsx:551-562 | after `clear()` the cancelled request's AbortError is shown as an info message |
| WidgetScenarios.ClearedSolveSuccessShowsResult | src/runtime/widget.tsx:599-637 | a request that succeeds after `clear()` still shows its result as ready |
| WidgetScenarios.EmptyPolygonArrayIsReady | src/runtime/widget.tsx:603-633 | an empty polygon array gives a ready, empty result with no message |
| WidgetScenarios.ContextLossClearsSolve | src/runtime/widget.tsx:258-270 | after the map selection is dropped, the query check that follows finds the state invalid and `clear()` drops the solve controller; the cancelled request's AbortError then shows as an info message in a widget without a map |
| WidgetScenarios.SupersededInitAbortShowsError | src/runtime/widget.tsx:691-704 | a superseded metadata request's abort is reported as an error while the newer request is still pending |
| WidgetScenarios.StaleMetadataInstallsOldUrl | src/runtime/widget.tsx:654-690 | a superseded metadata request that succeeds installs a task for its old URL and reports ready |
| WidgetScenarios.TwoMapsPassSettingsButNotRuntime | src/runtime/widget.tsx:862-867 | with two maps selected the settings panel is satisfied, but the widget shows the missing-map placeholder |
| SettingPanel.ResizedPalette | src/setting/setting.tsx:160-165 | the resized palette has exactly `value` entries |
| SettingPanel.RepetitionMaxChanged | src/setting/setting.tsx:160-173 | a configuration is produced iff `Array(value)` accepts the length, and its palette is the old one resized to `value` |
| SettingPanel.Mounted | src/setting/setting.tsx:50-53 | mounting resizes the palette to `repetitionMax` iff that is a valid array length |
| SettingPanel.ResultColorChanged | src/setting/setting.tsx:186-198 | the palette keeps its length |
| SettingPanel.ServiceAreaUrlChanged | src/setting/setting.tsx:148-158 | only the service URL changes, to the input's text |
| SettingPanel.FacilityColorChanged | src/setting/setting.tsx:200-205 | only the facility colour changes, to the picked colour |
| SettingPanel.Setting.constructor | src/setting/setting.tsx:36-39 | a map widget is recorded iff the selection is non-empty |
| SettingPanel.Setting.HandleMapWidgetChange | src/setting/setting.tsx:175-184 | records whether the selection is non-empty and passes the selection on unchanged |
| SettingPanel.ResizedPaletteEntries | src/setting/setting.tsx:160-165 | truthy old colours are kept, other positions get their random colour, and no entry is falsy afterwards |
| SettingPanel.RepetitionMaxChangedFields | src/setting/setting.tsx:166-172 | only `colors` and `repetitionMax` change |
| SettingPanel.ShrinkKeepsPrefix | src/setting/setting.tsx:160-165 | shrinking a palette of truthy colours keeps its prefix |
| SettingPanel.ResizeIdempotent | src/setting/setting.tsx:160-165 | resizing twice to the same length changes nothing the second time |
| SettingPanel.MountedStable | src/setting/setting.tsx:50-53 | mounting again on the configuration mounting produced gives the same configuration |
| SettingPanel.ResultColorChangedEntries | src/setting/setting.tsx:186-198 | the colour lands at `index` and nowhere else; an index outside the palette changes nothing |
| SettingPanel.ResultColorChangedIdempotent | src/setting/setting.tsx:186-198 | setting the same colour at the same index twice is the same as once |

## Left out

- Rendering (JSX, CSS, translations) is left out. The only part modelled is `render()`'s choice of placeholder.
- ArcGIS SDK objects are not modelled, because they are foreign code:
  - graphics layers, symbols, the Search and Slider widgets, tooltips, `Handles`;
  - `handleServiceAreasChange`, which only redraws the zones on the map;
  - `handleViewClick` and the drag branch of `handleFacilityChange`. Each starts a Search: at the clicked point, or at the dragged facility's new position when the pointer is released. That search's completion is the modelled `Widget.HandleSearchComplete` event, so its effect on the state is covered. The search itself is not modelled, and neither is the drag's in-place write of `facility.geometry` into the state's own facility object. The rest of `handleFacilityChange` only moves graphics and symbols;
  - the symbol update of the runtime `handleFacilityColorChange`, and the `search.focus()` and `activeMenu` side effects.
- The `setTimeout` in `handleSearchBlur` is not modelled, because it only touches SDK handles.
- `componentWillUnmout` is not modelled, because it only releases SDK objects.
- `search.focus()` in `handleSearchClear` is left out. It would throw when no Search widget exists.
- Promises and the network are replaced by numbered requests whose settlement is an explicit event.
- The solver's and the metadata service's answers are parameters of those events.
- React's batching of `setState` is not modelled. Each update is applied immediately and read back at once. `componentDidUpdate` therefore sees the state its own handlers produced, not the next render's.
- Object identity is replaced by value equality. In the source a new `Date` object, or a cloned facility with the same content, counts as a change and triggers a solve. In the model it does not.
- WidgetRuntime.Widget.HandleResultColorsChange: the in-place `reverse()` of the state's own array is not modelled. The source reverses that array in place, so the previous state is left reversed.
- WidgetRuntime.Widget.HandleDateChange: `new Date(value)` parsing is a parameter `parsed`. The model does not parse date strings.
- Parameters.GtfsTime: the result is the text `new Date(...)` parses. The parsing itself is not modelled.
- Parameters.TimeOfDay: `setHours` and `setMinutes` do not roll out-of-range values over into the next day. The fields are stored as given.
- WidgetRuntime.Widget.HandleTimeChange: the state keeps the numeric value of each time part, while the source keeps the raw strings. What the form displays for "" or a signed part therefore differs. Validity is the same. The solve is not always: `componentDidUpdate` compares hours and minutes with `!==`, so in the source the first edit after mounting turns the number 9 into the string "09" and triggers a solve even when the time is the same. The model sees no change there and does not solve.
- JsValues.NumberOf: only the empty string and optionally signed decimal digits are read. Whitespace, decimals, exponents and hexadecimal are not.
- Numbers are integers. Fractional intervals, repetitions and `Math.ceil` of a fractional ratio beyond `CeilDiv` are not modelled.
- WidgetRuntime.Widget.HandleIntervalChange: requires a positive `intervalStep`. A zero step makes the source's recomputed field NaN, and a negative one is not a step the setting panel offers; neither is modelled. Any value, zero or negative included, is accepted.
- WidgetRuntime.Widget.HandleRepetitionChange: the same positive-step requirement, for the same reason. The repetition comes from a numeric input bounded by `repetitionMin` and `repetitionMax`; the model does not rely on those bounds.
- Parameters.DateStringReads: states nothing about a date whose month or day lies outside the ranges `getMonth()` and `getDate()` return, since a real `Date` never has them.
- WidgetRuntime.Widget.HandleDayOfWeekChange: takes the index as a number. The NaN that `Number()` gives for a non-numeric option value is not modelled.
- `maxTravelTime` is read from the configuration but not declared in its interface. It is `Option<nat>`, where None is undefined.
- `randomHexColor()` draws are a parameter `randoms`, one colour per position, each a non-empty string starting with '#'.
- SolveResults.SortByToBreak: polygons with equal ToBreak keep their input order. The source's comparator never answers "equal", so their order there depends on the engine.
- WidgetRuntime.Widget.ComponentDidUpdate: the contract states only the service-URL branch. The map-selection, palette and query branches are the contracts of the methods it calls. The facility and service-area branches only touch SDK symbols and are left out. The facility-colour branch's symbol updates are left out too, and so is its write of a recoloured clone of the facility into the state. In the source that write changes `state.facility`, so the next `componentDidUpdate` sees a changed query and solves again; the model does not.
- WidgetRuntime.Widget.SolveResolved: requires one random colour per polygon. This is how the model supplies `randomHexColor()`.
