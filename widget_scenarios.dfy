/**
 * Runs of the widget's state machine in which settlements arrive late or out of
 * order, showing which of them the abort guards ignore and which reach the state.
 */
module WidgetScenarios {
  import opened JsValues
  import opened ConfigTypes
  import opened WidgetTypes
  import opened Parameters
  import opened SolveResults
  import opened WidgetRuntime
  import SettingPanel

  /** The fields `solve()` does not write are the only ones its parameters read. */
  lemma SolveParametersIgnoreDisplay(s: WidgetState, hasMapView: bool, areas: Option<seq<ServiceArea>>, status: Status, message: Option<string>)
    ensures SolveParameters(s.(serviceAreas := areas, status := status, message := message), hasMapView)
      == SolveParameters(s, hasMapView)
  {
    var t := s.(serviceAreas := areas, status := status, message := message);
    assert TimeOfDay(t) == TimeOfDay(s);
    assert IsValid(t) == IsValid(s);
  }

  /**
   * A second `solve()` aborts the first request; the first request's AbortError
   * then meets the second, live controller and is ignored, so the widget keeps
   * loading for the second request.
   */
  method SupersededSolveAbortIsIgnored(w: Widget) returns (first: SolveStart, second: SolveStart, ignored: bool)
    requires w.Valid() && SolveParameters(w.state, w.hasMapView).Some?
    modifies w
    ensures w.Valid()
    ensures first.Issued? && second.Issued? && first.id != second.id
    ensures ignored && w.state.status == Loading
    ensures w.solveAbortController == Some(Token(second.id, false))
  {
    first := w.Solve();
    SolveParametersIgnoreDisplay(old(w.state), w.hasMapView, None, Loading, None);
    second := w.Solve();
    ignored := w.SolveRejected(first.id, RequestError("AbortError", "The user aborted a request."));
  }

  /**
   * `clear()` aborts and drops the controller, so the cancelled request's
   * AbortError is not ignored: it replaces the cleared state with an info message.
   */
  method ClearedSolveAbortShowsInfo(w: Widget) returns (ignored: bool)
    requires w.Valid() && SolveParameters(w.state, w.hasMapView).Some?
    modifies w
    ensures w.Valid()
    ensures !ignored
    ensures w.state.status == Info && w.state.message == Some("The user aborted a request.")
  {
    var started := w.Solve();
    w.Clear();
    ignored := w.SolveRejected(started.id, RequestError("AbortError", "The user aborted a request."));
  }

  /**
   * The success path has no controller check: a request that succeeds after
   * `clear()` still puts its result on the map and sets the status to ready.
   */
  method ClearedSolveSuccessShowsResult(w: Widget, ps: seq<ZonePolygon>, randoms: seq<string>)
    requires w.Valid() && SolveParameters(w.state, w.hasMapView).Some? && |randoms| >= |ps|
    modifies w
    ensures w.Valid()
    ensures w.state.status == Ready
    ensures w.state.serviceAreas == Some(ProcessPolygons(ps, w.props.config.colors, randoms))
  {
    var started := w.Solve();
    w.Clear();
    w.SolveResolved(started.id, Some(ps), randoms);
  }

  /**
   * An empty polygon array is truthy: the result is ready and empty, and only a
   * missing list produces the "Empty solve result" message.
   */
  method EmptyPolygonArrayIsReady(w: Widget)
    requires w.Valid() && SolveParameters(w.state, w.hasMapView).Some?
    modifies w
    ensures w.Valid()
    ensures w.state.status == Ready && w.state.serviceAreas == Some([]) && w.state.message.None?
  {
    var started := w.Solve();
    w.SolveResolved(started.id, Some([]), []);
  }

  /**
   * Dropping the map selection resets the state without touching the solve in
   * flight, but clearing the facility changes the query: the `componentDidUpdate`
   * that follows finds the state invalid and its `clear()` aborts and drops the
   * controller. The cancelled request's AbortError then shows as an info message in
   * a widget without a map; a response that had already settled would instead show
   * its result, as in `ClearedSolveSuccessShowsResult`.
   */
  method ContextLossClearsSolve(w: Widget) returns (outcome: Option<SolveStart>, cleared: bool, ignored: bool)
    requires w.Valid() && IsValid(w.state) && SolveParameters(w.state, w.hasMapView).Some?
    modifies w
    ensures w.Valid()
    ensures outcome.None? && cleared && !ignored
    ensures !w.hasMapView && w.state.facility.None? && w.solveAbortController.None?
    ensures w.state.status == Info && w.state.message == Some("The user aborted a request.")
  {
    var started := w.Solve();
    var before := w.state;
    w.HandleUseMapWidgetIdsChange(None);
    assert QueryChanged(before, w.state) && !IsValid(w.state);
    outcome := w.QueryUpdate(before);
    cleared := w.solveAbortController.None? && w.state.serviceAreas.None? && w.state.status == Ready;
    ignored := w.SolveRejected(started.id, RequestError("AbortError", "The user aborted a request."));
  }

  /**
   * The metadata guard tests the error's message: a superseded metadata request
   * rejected by its abort (named AbortError with an ordinary message) is not
   * ignored and puts the widget in the error state, while the newer request is
   * still pending.
   */
  method SupersededInitAbortShowsError(w: Widget) returns (first: nat, second: nat, ignored: bool)
    requires w.Valid()
    modifies w
    ensures w.Valid()
    ensures !ignored && first != second && second in w.pendingInits
    ensures w.state.status == Error && w.state.message == Some("The user aborted a request.")
    ensures w.initAbortController.None?
  {
    first := w.CreateServiceAreaTask();
    second := w.CreateServiceAreaTask();
    ignored := w.InitRejected(first, RequestError("AbortError", "The user aborted a request."));
  }

  /**
   * A superseded metadata request that still succeeds installs a task for the URL it
   * was issued with, not for the URL now configured, and the widget reports ready.
   */
  method StaleMetadataInstallsOldUrl(w: Widget, newProps: Props, data: Metadata) returns (oldUrl: string)
    requires w.Valid() && data.layerType == ServiceAreaLayerType
    requires newProps.config.serviceAreaUrl != w.props.config.serviceAreaUrl
    modifies w
    ensures w.Valid()
    ensures oldUrl == old(w.props).config.serviceAreaUrl
    ensures w.serviceAreaTask == Some(oldUrl) && w.props.config.serviceAreaUrl != oldUrl
    ensures w.state.status == Ready && w.IsServiceAreaTaskConfigured()
  {
    oldUrl := w.props.config.serviceAreaUrl;
    var first := w.CreateServiceAreaTask();
    w.ReceiveProps(newProps);
    var second := w.CreateServiceAreaTask();
    w.InitResolved(first, data);
  }

  /**
   * The settings panel accepts any non-empty map selection, while the runtime widget
   * needs exactly one map: with two maps selected the panel is satisfied and the
   * widget shows the "missing map widget" placeholder.
   */
  lemma TwoMapsPassSettingsButNotRuntime(a: string, b: string)
    ensures SettingPanel.HasMapWidget(Some([a, b]))
    ensures !IsMapConfigured(Some([a, b]))
    ensures RenderedView(Some([a, b]), true) == MissingMapWidget
  {
  }
}
