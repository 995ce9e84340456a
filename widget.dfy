/**
 * The runtime widget as a state machine. The `Widget` class holds the React state
 * record and the instance fields the source assigns directly: whether a map view is
 * attached, the service-area task (by the URL it was created for) and the two
 * abort controllers. Network requests are not performed: `Solve` and
 * `CreateServiceAreaTask` issue numbered requests, and their settlements arrive
 * later, in any order, as the events `SolveResolved`, `SolveRejected`,
 * `InitResolved` and `InitRejected`.
 */
module WidgetRuntime {
  import opened JsValues
  import opened ConfigTypes
  import opened WidgetTypes
  import opened Parameters
  import opened SolveResults
  import opened FacilitySearch

  /** An `AbortController`: the number of the request it guards and whether `abort()` was called. */
  datatype Token = Token(id: nat, aborted: bool)

  /** The two fields of a rejection's error that the `catch` handlers read. */
  datatype RequestError = RequestError(name: string, message: string)

  /** What `solve()` did: issued request `id`, or threw while building the parameters. */
  datatype SolveStart = Issued(id: nat, request: SolveRequest) | SolveThrew

  const ServiceAreaLayerType: string := "esriNAServerServiceAreaLayer"
  const IncorrectUrlMessage: string := "Incorrect Service Area URL"
  const EmptyResultMessage: string := "Empty solve result"
  const AbortErrorText: string := "AbortError"

  /** `controller.abort()` on a field that may be null. */
  function Abort(t: Option<Token>): (r: Option<Token>)
    ensures r.Some? <==> t.Some?
    ensures r.Some? ==> r.value == Token(t.value.id, true)
  {
    if t.Some? then Some(t.value.(aborted := true)) else None
  }

  /** The guard in `solve()`'s `catch`: the error's NAME is "AbortError" and the controller is live. */
  predicate SolveRejectionIgnored(e: RequestError, controller: Option<Token>) {
    e.name == AbortErrorText && controller.Some? && !controller.value.aborted
  }

  /** The guard in `createServiceAreaTask()`'s `catch`: it tests the error's MESSAGE instead. */
  predicate InitRejectionIgnored(e: RequestError, controller: Option<Token>) {
    e.message == AbortErrorText && controller.Some? && !controller.value.aborted
  }

  /**
   * The two guards disagree on an ordinary abort (name "AbortError", some other
   * message): the solve handler swallows it, the metadata handler reports it.
   */
  lemma AbortGuardsDiffer(e: RequestError, t: Token)
    requires !t.aborted
    ensures e.name == AbortErrorText && e.message != AbortErrorText ==>
      SolveRejectionIgnored(e, Some(t)) && !InitRejectionIgnored(e, Some(t))
    ensures SolveRejectionIgnored(e, Some(t)) <==> e.name == AbortErrorText
    ensures InitRejectionIgnored(e, Some(t)) <==> e.message == AbortErrorText
    ensures !SolveRejectionIgnored(e, None) && !InitRejectionIgnored(e, None)
    ensures !SolveRejectionIgnored(e, Some(t.(aborted := true)))
  {
  }

  /** The seven reference days `new Date(1990, 0, k + 1)`, k = 0..6, at midnight. */
  function DaysOfWeek(): (r: seq<JsDate>)
    ensures |r| == 7
    ensures forall k :: 0 <= k < 7 ==> r[k] == Date(1990, 0, k + 1, 0, 0, 0, 0)
  {
    seq(7, k requires 0 <= k < 7 => Date(1990, 0, k + 1, 0, 0, 0, 0))
  }

  /** `isMapConfigured()`: exactly one map widget is selected. */
  predicate IsMapConfigured(useMapWidgetIds: Option<seq<string>>) {
    useMapWidgetIds.Some? && |useMapWidgetIds.value| == 1
  }

  /** What `render()` shows. */
  datatype View = MissingMapWidget | IncorrectServiceAreaUrl | Form

  /** `render()`'s choice between the two placeholders and the form. */
  function RenderedView(useMapWidgetIds: Option<seq<string>>, taskConfigured: bool): (v: View)
    ensures v == Form <==> IsMapConfigured(useMapWidgetIds) && taskConfigured
    ensures v == MissingMapWidget <==> !IsMapConfigured(useMapWidgetIds)
  {
    if !IsMapConfigured(useMapWidgetIds) then MissingMapWidget
    else if !taskConfigured then IncorrectServiceAreaUrl
    else Form
  }

  /** The nine state fields whose change makes `componentDidUpdate` solve or clear. */
  predicate QueryChanged(prev: WidgetState, cur: WidgetState) {
    || cur.facility != prev.facility
    || cur.dateType != prev.dateType
    || cur.date != prev.date
    || cur.hours != prev.hours
    || cur.minutes != prev.minutes
    || cur.dayOfWeek != prev.dayOfWeek
    || cur.interval != prev.interval
    || cur.repetition != prev.repetition
    || cur.travelDirection != prev.travelDirection
  }

  /**
   * The query is unchanged exactly when the two states differ at most in the six
   * fields outside it: status, message, daysOfWeek, serviceAreas, metadata and
   * isSearchFocus. A change to any of these alone never triggers a solve.
   */
  lemma QueryChangedIff(prev: WidgetState, cur: WidgetState)
    ensures !QueryChanged(prev, cur) <==>
      prev.(status := cur.status, message := cur.message, daysOfWeek := cur.daysOfWeek,
            serviceAreas := cur.serviceAreas, metadata := cur.metadata, isSearchFocus := cur.isSearchFocus) == cur
  {
  }

  /** The state after a lost map context: ready, no facility, no result, no message. */
  function ContextLost(s: WidgetState): (r: WidgetState)
    ensures r.status == Ready && r.facility.None? && r.serviceAreas.None? && r.message.None?
    ensures r.(status := s.status, facility := s.facility, serviceAreas := s.serviceAreas, message := s.message) == s
  {
    s.(status := Ready, facility := None, serviceAreas := None, message := None)
  }

  class Widget {
    var props: Props
    var state: WidgetState
    /** `this.mapView` is set. */
    var hasMapView: bool
    /** `this.serviceAreaTask`: None for null, else the URL the task was created with. */
    var serviceAreaTask: Option<string>
    var solveAbortController: Option<Token>
    var initAbortController: Option<Token>
    /** Solve requests issued and not yet settled. */
    var pendingSolves: set<nat>
    /** Metadata requests issued and not yet settled, with the URL each one captured. */
    var pendingInits: map<nat, string>
    /** The number the next request gets. */
    var nextId: nat

    ghost predicate Valid()
      reads this
    {
      && |state.daysOfWeek| == 7
      && state.status != Disabled
      && (serviceAreaTask.Some? <==> state.metadata.Some?)
      && (state.metadata.Some? ==> state.metadata.value.layerType == ServiceAreaLayerType)
      && (solveAbortController.Some? ==> solveAbortController.value.id < nextId)
      && (initAbortController.Some? ==> initAbortController.value.id < nextId && !initAbortController.value.aborted)
      && (forall id :: id in pendingSolves ==> id < nextId)
      && (forall id :: id in pendingInits ==> id < nextId)
    }

    /** `isServiceAreaTaskConfigured()`: the task and its metadata are both present. */
    predicate IsServiceAreaTaskConfigured()
      reads this
    {
      serviceAreaTask.Some? && state.metadata.Some?
    }

    /**
     * The constructor's initial state: loading, today's date and time, the reference
     * week, and the configured day of week, interval and repetition.
     */
    constructor(p: Props, now: JsDate, hours: int, minutes: int)
      requires now.Date?
      ensures Valid()
      ensures props == p && !hasMapView && serviceAreaTask.None?
      ensures solveAbortController.None? && initAbortController.None?
      ensures pendingSolves == {} && pendingInits == map[] && nextId == 0
      ensures state == WidgetState(
        Loading, None, OnDate, FromFacility, Some(now), Some(hours), Some(minutes),
        DaysOfWeek(), p.config.dayOfWeek, p.config.interval, p.config.repetition,
        None, None, None, false)
    {
      props := p;
      state := WidgetState(
        Loading, None, OnDate, FromFacility, Some(now), Some(hours), Some(minutes),
        DaysOfWeek(), p.config.dayOfWeek, p.config.interval, p.config.repetition,
        None, None, None, false);
      hasMapView := false;
      serviceAreaTask := None;
      solveAbortController := None;
      initAbortController := None;
      pendingSolves := {};
      pendingInits := map[];
      nextId := 0;
    }

    // -------------------------------------------------------------------------
    // The solve request

    /** `clear()`: abort and drop the solve controller, then show no result. */
    method Clear()
      requires Valid()
      modifies this
      ensures Valid()
      ensures solveAbortController.None?
      ensures state == old(state).(serviceAreas := None, status := Ready, message := None)
      ensures props == old(props) && hasMapView == old(hasMapView) && serviceAreaTask == old(serviceAreaTask)
      ensures initAbortController == old(initAbortController) && pendingSolves == old(pendingSolves)
      ensures pendingInits == old(pendingInits) && nextId == old(nextId)
    {
      if solveAbortController.Some? {
        solveAbortController := Abort(solveAbortController);
        solveAbortController := None;
      }
      state := state.(serviceAreas := None, status := Ready, message := None);
    }

    /**
     * `solve()`: abort the previous controller, then build the parameters. When that
     * throws, the aborted controller stays in place and the state is untouched;
     * otherwise a fresh controller guards the new request and the widget is loading.
     */
    method Solve() returns (outcome: SolveStart)
      requires Valid()
      modifies this
      ensures Valid()
      ensures old(SolveParameters(state, hasMapView)).None? ==>
        && outcome == SolveThrew
        && solveAbortController == Abort(old(solveAbortController))
        && state == old(state) && pendingSolves == old(pendingSolves) && nextId == old(nextId)
      ensures old(SolveParameters(state, hasMapView)).Some? ==>
        && outcome == Issued(old(nextId), old(SolveParameters(state, hasMapView)).value)
        && solveAbortController == Some(Token(old(nextId), false))
        && state == old(state).(serviceAreas := None, status := Loading, message := None)
        && pendingSolves == old(pendingSolves) + {old(nextId)} && nextId == old(nextId) + 1
      ensures props == old(props) && hasMapView == old(hasMapView) && serviceAreaTask == old(serviceAreaTask)
      ensures initAbortController == old(initAbortController) && pendingInits == old(pendingInits)
    {
      if solveAbortController.Some? {
        solveAbortController := Abort(solveAbortController);
      }
      var params := SolveParameters(state, hasMapView);
      if params.None? {
        return SolveThrew;
      }
      var id := nextId;
      nextId := nextId + 1;
      solveAbortController := Some(Token(id, false));
      pendingSolves := pendingSolves + {id};
      state := state.(serviceAreas := None, status := Loading, message := None);
      outcome := Issued(id, params.value);
    }

    /**
     * The `then` of solve request `id`. It does not look at the controller: any
     * request that succeeds shows its result (`polygons`, None for a null list) and
     * drops whatever controller is current. `randoms` are the colours
     * `randomHexColor()` would draw, by position.
     */
    method SolveResolved(id: nat, polygons: Option<seq<ZonePolygon>>, randoms: seq<string>)
      requires Valid() && id in pendingSolves
      requires polygons.Some? ==> |randoms| >= |polygons.value|
      modifies this
      ensures Valid()
      ensures polygons.Some? ==>
        state == old(state).(status := Ready,
                             serviceAreas := Some(ProcessPolygons(polygons.value, old(props).config.colors, randoms)))
      ensures polygons.None? ==> state == old(state).(status := Info, message := Some(EmptyResultMessage))
      ensures solveAbortController.None? && pendingSolves == old(pendingSolves) - {id}
      ensures props == old(props) && hasMapView == old(hasMapView) && serviceAreaTask == old(serviceAreaTask)
      ensures initAbortController == old(initAbortController) && pendingInits == old(pendingInits)
      ensures nextId == old(nextId)
    {
      if polygons.Some? {
        var areas := ProcessPolygons(polygons.value, props.config.colors, randoms);
        state := state.(status := Ready, serviceAreas := Some(areas));
      } else {
        state := state.(status := Info, message := Some(EmptyResultMessage));
      }
      solveAbortController := None;
      pendingSolves := pendingSolves - {id};
    }

    /**
     * The `catch` of solve request `id`. The rejection is ignored exactly when the
     * error is named "AbortError" and the CURRENT controller exists and is not
     * aborted; otherwise the controller is dropped and the message shown as info.
     */
    method SolveRejected(id: nat, e: RequestError) returns (ignored: bool)
      requires Valid() && id in pendingSolves
      modifies this
      ensures Valid()
      ensures ignored <==> SolveRejectionIgnored(e, old(solveAbortController))
      ensures ignored ==> state == old(state) && solveAbortController == old(solveAbortController)
      ensures !ignored ==>
        state == old(state).(status := Info, message := Some(e.message)) && solveAbortController.None?
      ensures pendingSolves == old(pendingSolves) - {id}
      ensures props == old(props) && hasMapView == old(hasMapView) && serviceAreaTask == old(serviceAreaTask)
      ensures initAbortController == old(initAbortController) && pendingInits == old(pendingInits)
      ensures nextId == old(nextId)
    {
      pendingSolves := pendingSolves - {id};
      ignored := e.name == AbortErrorText && solveAbortController.Some? && !solveAbortController.value.aborted;
      if !ignored {
        solveAbortController := None;
        state := state.(status := Info, message := Some(e.message));
      }
    }

    // -------------------------------------------------------------------------
    // The service-area task

    /**
     * `createServiceAreaTask()`: abort and drop the previous metadata controller, null
     * the task and its metadata, show loading, and request the metadata of the
     * configured URL under a fresh controller.
     */
    method CreateServiceAreaTask() returns (id: nat)
      requires Valid()
      modifies this
      ensures Valid()
      ensures id == old(nextId) && nextId == old(nextId) + 1
      ensures initAbortController == Some(Token(id, false))
      ensures pendingInits == old(pendingInits)[id := old(props).config.serviceAreaUrl]
      ensures serviceAreaTask.None?
      ensures state == old(state).(status := Loading, metadata := None, message := None)
      ensures props == old(props) && hasMapView == old(hasMapView)
      ensures solveAbortController == old(solveAbortController) && pendingSolves == old(pendingSolves)
    {
      if initAbortController.Some? {
        initAbortController := Abort(initAbortController);
        initAbortController := None;
      }
      serviceAreaTask := None;
      state := state.(status := Loading, metadata := None, message := None);
      id := nextId;
      nextId := nextId + 1;
      initAbortController := Some(Token(id, false));
      pendingInits := pendingInits[id := props.config.serviceAreaUrl];
    }

    /**
     * The `then` of metadata request `id`. A response that is not a service-area
     * layer is thrown as "Incorrect Service Area URL" and lands in the `catch`, which
     * shows it as an error; otherwise the task is created for the URL that request
     * captured and the widget is ready. Either way the controller is dropped.
     */
    method InitResolved(id: nat, data: Metadata)
      requires Valid() && id in pendingInits
      modifies this
      ensures Valid()
      ensures data.layerType != ServiceAreaLayerType ==>
        && state == old(state).(status := Error, message := Some(IncorrectUrlMessage))
        && serviceAreaTask == old(serviceAreaTask)
      ensures data.layerType == ServiceAreaLayerType ==>
        && state == old(state).(status := Ready, metadata := Some(data), message := None)
        && serviceAreaTask == Some(old(pendingInits)[id])
      ensures initAbortController.None? && pendingInits == old(pendingInits) - {id}
      ensures props == old(props) && hasMapView == old(hasMapView) && nextId == old(nextId)
      ensures solveAbortController == old(solveAbortController) && pendingSolves == old(pendingSolves)
    {
      var url := pendingInits[id];
      pendingInits := pendingInits - {id};
      if data.layerType != ServiceAreaLayerType {
        var ignored := InitRejectionIgnored(RequestError("Error", IncorrectUrlMessage), initAbortController);
        assert !ignored;
        initAbortController := None;
        state := state.(status := Error, message := Some(IncorrectUrlMessage));
      } else {
        serviceAreaTask := Some(url);
        initAbortController := None;
        state := state.(status := Ready, metadata := Some(data), message := None);
      }
    }

    /**
     * The `catch` of metadata request `id`. It is ignored exactly when the error's
     * MESSAGE is "AbortError" and a controller is current (an installed metadata
     * controller is never aborted); otherwise the controller is dropped and the
     * message shown as an error.
     */
    method InitRejected(id: nat, e: RequestError) returns (ignored: bool)
      requires Valid() && id in pendingInits
      modifies this
      ensures Valid()
      ensures ignored <==> InitRejectionIgnored(e, old(initAbortController))
      ensures ignored <==> e.message == AbortErrorText && old(initAbortController).Some?
      ensures ignored ==> state == old(state) && initAbortController == old(initAbortController)
      ensures !ignored ==>
        state == old(state).(status := Error, message := Some(e.message)) && initAbortController.None?
      ensures pendingInits == old(pendingInits) - {id}
      ensures props == old(props) && hasMapView == old(hasMapView) && serviceAreaTask == old(serviceAreaTask)
      ensures solveAbortController == old(solveAbortController) && pendingSolves == old(pendingSolves)
      ensures nextId == old(nextId)
    {
      pendingInits := pendingInits - {id};
      ignored := e.message == AbortErrorText && initAbortController.Some? && !initAbortController.value.aborted;
      if !ignored {
        initAbortController := None;
        state := state.(status := Error, message := Some(e.message));
      }
    }

    // -------------------------------------------------------------------------
    // Form inputs

    /**
     * `handleIntervalChange(value)`: set the interval, then, when repetition x value
     * exceeds the ceiling, recompute the repetition from it.
     */
    method HandleIntervalChange(value: int)
      requires Valid() && props.config.intervalStep > 0
      modifies this
      ensures Valid()
      ensures state == old(state).(interval := value,
        repetition := Rebalanced(old(state).repetition, value, old(props).config.maxTravelTime, old(props).config.intervalStep))
      ensures props == old(props) && hasMapView == old(hasMapView) && serviceAreaTask == old(serviceAreaTask)
      ensures solveAbortController == old(solveAbortController) && initAbortController == old(initAbortController)
      ensures pendingSolves == old(pendingSolves) && pendingInits == old(pendingInits) && nextId == old(nextId)
    {
      var repetition := state.repetition;
      state := state.(interval := value);
      if Exceeds(repetition, value, props.config.maxTravelTime) {
        var newRepetition := Rebalanced(repetition, value, props.config.maxTravelTime, props.config.intervalStep);
        state := state.(repetition := newRepetition);
      }
    }

    /** `handleRepetitionChange(value)`: the same with the roles of interval and repetition swapped. */
    method HandleRepetitionChange(value: int)
      requires Valid() && props.config.intervalStep > 0
      modifies this
      ensures Valid()
      ensures state == old(state).(repetition := value,
        interval := Rebalanced(old(state).interval, value, old(props).config.maxTravelTime, old(props).config.intervalStep))
      ensures props == old(props) && hasMapView == old(hasMapView) && serviceAreaTask == old(serviceAreaTask)
      ensures solveAbortController == old(solveAbortController) && initAbortController == old(initAbortController)
      ensures pendingSolves == old(pendingSolves) && pendingInits == old(pendingInits) && nextId == old(nextId)
    {
      var interval := state.interval;
      state := state.(repetition := value);
      if Exceeds(interval, value, props.config.maxTravelTime) {
        var newInterval := Rebalanced(interval, value, props.config.maxTravelTime, props.config.intervalStep);
        state := state.(interval := newInterval);
      }
    }

    /** `handleResultColorsChange(colors)`: repaint a non-empty result with the new palette. */
    method HandleResultColorsChange(colors: seq<string>)
      requires Valid()
      modifies this
      ensures Valid()
      ensures old(state).serviceAreas.Some? && |old(state).serviceAreas.value| > 0 ==>
        state == old(state).(serviceAreas := Some(Recolored(old(state).serviceAreas.value, colors)))
      ensures !(old(state).serviceAreas.Some? && |old(state).serviceAreas.value| > 0) ==> state == old(state)
      ensures props == old(props) && hasMapView == old(hasMapView) && serviceAreaTask == old(serviceAreaTask)
      ensures solveAbortController == old(solveAbortController) && initAbortController == old(initAbortController)
      ensures pendingSolves == old(pendingSolves) && pendingInits == old(pendingInits) && nextId == old(nextId)
    {
      var serviceAreas := state.serviceAreas;
      if serviceAreas.Some? && |serviceAreas.value| > 0 {
        var serviceAreasNew := Recolored(serviceAreas.value, colors);
        state := state.(serviceAreas := Some(serviceAreasNew));
      }
    }

    method HandleTravelDirectionChange(value: TravelDirection)
      requires Valid()
      modifies this
      ensures Valid()
      ensures state == old(state).(travelDirection := value)
      ensures props == old(props) && hasMapView == old(hasMapView) && serviceAreaTask == old(serviceAreaTask)
      ensures solveAbortController == old(solveAbortController) && initAbortController == old(initAbortController)
      ensures pendingSolves == old(pendingSolves) && pendingInits == old(pendingInits) && nextId == old(nextId)
    {
      state := state.(travelDirection := value);
    }

    method HandleDateTypeChange(value: DateType)
      requires Valid()
      modifies this
      ensures Valid()
      ensures state == old(state).(dateType := value)
      ensures props == old(props) && hasMapView == old(hasMapView) && serviceAreaTask == old(serviceAreaTask)
      ensures solveAbortController == old(solveAbortController) && initAbortController == old(initAbortController)
      ensures pendingSolves == old(pendingSolves) && pendingInits == old(pendingInits) && nextId == old(nextId)
    {
      state := state.(dateType := value);
    }

    /**
     * `handleDateChange`: an empty input clears the date; otherwise the date is
     * `new Date(value)`, whose parse (`parsed`) is not modelled.
     */
    method HandleDateChange(value: string, parsed: JsDate)
      requires Valid()
      modifies this
      ensures Valid()
      ensures state == old(state).(date := if value == "" then None else Some(parsed))
      ensures props == old(props) && hasMapView == old(hasMapView) && serviceAreaTask == old(serviceAreaTask)
      ensures solveAbortController == old(solveAbortController) && initAbortController == old(initAbortController)
      ensures pendingSolves == old(pendingSolves) && pendingInits == old(pendingInits) && nextId == old(nextId)
    {
      var date := if value != "" then Some(parsed) else None;
      state := state.(date := date);
    }

    /** `handleDayOfWeekChange`: the selected option's index. */
    method HandleDayOfWeekChange(value: int)
      requires Valid()
      modifies this
      ensures Valid()
      ensures state == old(state).(dayOfWeek := value)
      ensures props == old(props) && hasMapView == old(hasMapView) && serviceAreaTask == old(serviceAreaTask)
      ensures solveAbortController == old(solveAbortController) && initAbortController == old(initAbortController)
      ensures pendingSolves == old(pendingSolves) && pendingInits == old(pendingInits) && nextId == old(nextId)
    {
      state := state.(dayOfWeek := value);
    }

    /** `handleTimeChange`: the hours and minutes read from the time input's text. */
    method HandleTimeChange(value: string)
      requires Valid()
      modifies this
      ensures Valid()
      ensures state == old(state).(hours := TimeInput(value).0, minutes := TimeInput(value).1)
      ensures props == old(props) && hasMapView == old(hasMapView) && serviceAreaTask == old(serviceAreaTask)
      ensures solveAbortController == old(solveAbortController) && initAbortController == old(initAbortController)
      ensures pendingSolves == old(pendingSolves) && pendingInits == old(pendingInits) && nextId == old(nextId)
    {
      var (hours, minutes) := TimeInput(value);
      state := state.(hours := hours, minutes := minutes);
    }

    // -------------------------------------------------------------------------
    // Search events

    /** `handleSearchComplete`: set the folded choice, or throw and change nothing. */
    method HandleSearchComplete(numResults: int, sources: seq<SourceResults>) returns (threw: bool)
      requires Valid()
      modifies this
      ensures Valid()
      ensures threw <==> SearchComplete(numResults, sources) == Threw
      ensures !threw ==> state == old(state).(facility := SearchComplete(numResults, sources).facility)
      ensures threw ==> state == old(state)
      ensures props == old(props) && hasMapView == old(hasMapView) && serviceAreaTask == old(serviceAreaTask)
      ensures solveAbortController == old(solveAbortController) && initAbortController == old(initAbortController)
      ensures pendingSolves == old(pendingSolves) && pendingInits == old(pendingInits) && nextId == old(nextId)
    {
      var outcome := SearchComplete(numResults, sources);
      threw := outcome.Threw?;
      if !threw {
        state := state.(facility := outcome.facility);
      }
    }

    /** `handleSearchResult`: the picked candidate becomes the facility, or the handler throws. */
    method HandleSearchResult(result: SearchResult) returns (threw: bool)
      requires Valid()
      modifies this
      ensures Valid()
      ensures threw <==> result.feature.None?
      ensures !threw ==> state == old(state).(facility := SearchResultPicked(result).facility)
      ensures threw ==> state == old(state)
      ensures props == old(props) && hasMapView == old(hasMapView) && serviceAreaTask == old(serviceAreaTask)
      ensures solveAbortController == old(solveAbortController) && initAbortController == old(initAbortController)
      ensures pendingSolves == old(pendingSolves) && pendingInits == old(pendingInits) && nextId == old(nextId)
    {
      var outcome := SearchResultPicked(result);
      threw := outcome.Threw?;
      if !threw {
        state := state.(facility := outcome.facility);
      }
    }

    method HandleSearchClear()
      requires Valid()
      modifies this
      ensures Valid()
      ensures state == old(state).(facility := None)
      ensures props == old(props) && hasMapView == old(hasMapView) && serviceAreaTask == old(serviceAreaTask)
      ensures solveAbortController == old(solveAbortController) && initAbortController == old(initAbortController)
      ensures pendingSolves == old(pendingSolves) && pendingInits == old(pendingInits) && nextId == old(nextId)
    {
      state := state.(facility := None);
    }

    /**
     * `handleSearchFocus`: it subscribes to the map view's clicks before setting the
     * flag, so without a map view it throws and the flag stays as it was.
     */
    method HandleSearchFocus() returns (threw: bool)
      requires Valid()
      modifies this
      ensures Valid()
      ensures threw <==> !hasMapView
      ensures state == old(state).(isSearchFocus := if threw then old(state).isSearchFocus else true)
      ensures props == old(props) && hasMapView == old(hasMapView) && serviceAreaTask == old(serviceAreaTask)
      ensures solveAbortController == old(solveAbortController) && initAbortController == old(initAbortController)
      ensures pendingSolves == old(pendingSolves) && pendingInits == old(pendingInits) && nextId == old(nextId)
    {
      threw := !hasMapView;
      if !threw {
        state := state.(isSearchFocus := true);
      }
    }

    method HandleSearchBlur()
      requires Valid()
      modifies this
      ensures Valid()
      ensures state == old(state).(isSearchFocus := false)
      ensures props == old(props) && hasMapView == old(hasMapView) && serviceAreaTask == old(serviceAreaTask)
      ensures solveAbortController == old(solveAbortController) && initAbortController == old(initAbortController)
      ensures pendingSolves == old(pendingSolves) && pendingInits == old(pendingInits) && nextId == old(nextId)
    {
      state := state.(isSearchFocus := false);
    }

    // -------------------------------------------------------------------------
    // The map context

    /**
     * `handleUseMapWidgetIdsChange`: when no map widget is selected any more, drop the
     * map view and reset the state. This handler leaves the solve controller alone;
     * the `clear()` of the query check that follows aborts it.
     */
    method HandleUseMapWidgetIdsChange(useMapWidgetIds: Option<seq<string>>)
      requires Valid()
      modifies this
      ensures Valid()
      ensures useMapWidgetIds.None? || |useMapWidgetIds.value| == 0 ==>
        !hasMapView && state == ContextLost(old(state))
      ensures !(useMapWidgetIds.None? || |useMapWidgetIds.value| == 0) ==>
        hasMapView == old(hasMapView) && state == old(state)
      ensures props == old(props) && serviceAreaTask == old(serviceAreaTask)
      ensures solveAbortController == old(solveAbortController) && initAbortController == old(initAbortController)
      ensures pendingSolves == old(pendingSolves) && pendingInits == old(pendingInits) && nextId == old(nextId)
    {
      if useMapWidgetIds.None? || |useMapWidgetIds.value| == 0 {
        hasMapView := false;
        state := state.(status := Ready, facility := None, serviceAreas := None, message := None);
      }
    }

    /**
     * `handleActiveViewChange`: a previous map view is dropped and the state reset;
     * then the new view, when there is one, is attached.
     */
    method HandleActiveViewChange(viewAvailable: bool)
      requires Valid()
      modifies this
      ensures Valid()
      ensures hasMapView == viewAvailable
      ensures state == if old(hasMapView) then ContextLost(old(state)) else old(state)
      ensures props == old(props) && serviceAreaTask == old(serviceAreaTask)
      ensures solveAbortController == old(solveAbortController) && initAbortController == old(initAbortController)
      ensures pendingSolves == old(pendingSolves) && pendingInits == old(pendingInits) && nextId == old(nextId)
    {
      if hasMapView {
        hasMapView := false;
        state := state.(status := Ready, facility := None, serviceAreas := None, message := None);
      }
      if !viewAvailable {
        return;
      }
      hasMapView := true;
    }

    // -------------------------------------------------------------------------
    // Lifecycle

    /** The framework hands the widget new props. */
    method ReceiveProps(p: Props)
      requires Valid()
      modifies this
      ensures Valid()
      ensures props == p && state == old(state) && hasMapView == old(hasMapView)
      ensures serviceAreaTask == old(serviceAreaTask)
      ensures solveAbortController == old(solveAbortController) && initAbortController == old(initAbortController)
      ensures pendingSolves == old(pendingSolves) && pendingInits == old(pendingInits) && nextId == old(nextId)
    {
      props := p;
    }

    /** `componentDidMount`: request the metadata of the configured service. */
    method ComponentDidMount() returns (id: nat)
      requires Valid()
      modifies this
      ensures Valid()
      ensures id == old(nextId) && initAbortController == Some(Token(id, false))
      ensures pendingInits == old(pendingInits)[id := old(props).config.serviceAreaUrl]
      ensures state == old(state).(status := Loading, metadata := None, message := None)
      ensures serviceAreaTask.None? && props == old(props) && nextId == old(nextId) + 1
      ensures hasMapView == old(hasMapView)
      ensures solveAbortController == old(solveAbortController) && pendingSolves == old(pendingSolves)
    {
      id := CreateServiceAreaTask();
    }

    /**
     * The query part of `componentDidUpdate`: when one of the nine query fields
     * differs from the previous state, solve if the state is valid and clear otherwise.
     */
    method QueryUpdate(prevState: WidgetState) returns (outcome: Option<SolveStart>)
      requires Valid()
      modifies this
      ensures Valid()
      ensures !QueryChanged(prevState, old(state)) ==>
        && outcome.None? && state == old(state)
        && solveAbortController == old(solveAbortController)
        && pendingSolves == old(pendingSolves) && nextId == old(nextId)
      ensures QueryChanged(prevState, old(state)) && IsValid(old(state)) ==>
        && outcome.Some?
        && (old(SolveParameters(state, hasMapView)).Some? ==>
          && outcome.value == Issued(old(nextId), old(SolveParameters(state, hasMapView)).value)
          && state == old(state).(serviceAreas := None, status := Loading, message := None)
          && solveAbortController == Some(Token(old(nextId), false))
          && pendingSolves == old(pendingSolves) + {old(nextId)} && nextId == old(nextId) + 1)
        && (old(SolveParameters(state, hasMapView)).None? ==>
          && outcome.value == SolveThrew && state == old(state)
          && solveAbortController == Abort(old(solveAbortController))
          && pendingSolves == old(pendingSolves) && nextId == old(nextId))
      ensures QueryChanged(prevState, old(state)) && !IsValid(old(state)) ==>
        && outcome.None? && solveAbortController.None?
        && state == old(state).(serviceAreas := None, status := Ready, message := None)
        && pendingSolves == old(pendingSolves) && nextId == old(nextId)
      ensures props == old(props) && hasMapView == old(hasMapView) && serviceAreaTask == old(serviceAreaTask)
      ensures initAbortController == old(initAbortController) && pendingInits == old(pendingInits)
    {
      outcome := None;
      if QueryChanged(prevState, state) {
        if IsValid(state) {
          var started := Solve();
          outcome := Some(started);
        } else {
          Clear();
        }
      }
    }

    /**
     * `componentDidUpdate(prevProps, prevState)`: react to a new map selection, a new
     * service URL and a new palette, then to a changed query.
     */
    method ComponentDidUpdate(prevProps: Props, prevState: WidgetState) returns (outcome: Option<SolveStart>)
      requires Valid()
      modifies this
      ensures Valid()
      ensures props == old(props)
      ensures props.config.serviceAreaUrl != prevProps.config.serviceAreaUrl ==>
        && old(nextId) in pendingInits && pendingInits[old(nextId)] == props.config.serviceAreaUrl
        && serviceAreaTask.None? && state.metadata.None?
      ensures props.config.serviceAreaUrl == prevProps.config.serviceAreaUrl ==>
        serviceAreaTask == old(serviceAreaTask) && state.metadata == old(state).metadata
    {
      if props.useMapWidgetIds != prevProps.useMapWidgetIds {
        HandleUseMapWidgetIdsChange(props.useMapWidgetIds);
      }
      if props.config.serviceAreaUrl != prevProps.config.serviceAreaUrl {
        var _ := CreateServiceAreaTask();
      }
      if props.config.colors != prevProps.config.colors {
        HandleResultColorsChange(props.config.colors);
      }
      outcome := QueryUpdate(prevState);
    }
  }
}
