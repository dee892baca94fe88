/** The two popover resolvers of `ChartSettings`: the style widget (the
    series settings widget focused on one series) and the formatting widget
    (the catalog widget the click asked for, with the click's props laid
    over it). Both answer "no widget" as a normal outcome. */
module PopoverResolvers {
  import opened JsValues
  import opened Widgets

  /** One transformed series, as far as the resolvers look at it: the card's
      `display` and the columns of its data. */
  datatype SingleSeries = SingleSeries(display: string, cols: seq<Value>)

  /** `series?.[0]?.card?.display`. */
  function Display(series: seq<SingleSeries>): Option<string>
  {
    if |series| == 0 then None else Some(series[0].display)
  }

  /** `graph.dimensions` is truthy and has more than one entry. */
  predicate HasBreakouts(settings: Props)
  {
    var dims := Get(settings, "graph.dimensions");
    Truthy(dims) && LengthOf(dims).Some? && LengthOf(dims).value > 1
  }

  /** `i` is the position of the first widget of `ws` with id `id`. */
  predicate FirstWithId(ws: seq<Widget>, i: int, id: string)
  {
    0 <= i < |ws| && ws[i].id == id && forall j :: 0 <= j < i ==> ws[j].id != id
  }

  /** `getFormattingWidget`: the first catalog widget with the current
      widget's id, with the current widget's props laid over its own, so
      that on a shared key the current widget's prop wins. */
  function FormattingWidget(current: Option<Widget>, widgets: seq<Widget>): (r: Option<Widget>)
    ensures r.Some? <==> current.Some? && exists i :: 0 <= i < |widgets| && widgets[i].id == current.value.id
    ensures r.Some? ==>
              exists i :: FirstWithId(widgets, i, current.value.id)
                && r.value == widgets[i].(props := Overlay(widgets[i].props, current.value.props))
    ensures r.Some? ==> r.value.id == current.value.id
    ensures r.Some? ==> forall k :: k in current.value.props ==> r.value.props[k] == current.value.props[k]
  {
    if current.None? then None
    else
      var id := current.value.id;
      match FindIndex(widgets, (w: Widget) => w.id == id)
      case None => None
      case Some(i) =>
        var widget := widgets[i];
        assert FirstWithId(widgets, i, id);
        Some(widget.(props := Overlay(widget.props, current.value.props)))
  }

  /** Why `getStyleWidget` gives up before looking at the clicked widget's
      props: no current widget, a pie chart's column settings, a waterfall
      chart, or no `series_settings` widget in the catalog. */
  predicate StyleSuppressed(current: Option<Widget>, widgets: seq<Widget>, series: seq<SingleSeries>)
  {
    || current.None?
    || (Display(series) == Some("pie") && current.value.id == "column_settings")
    || Display(series) == Some("waterfall")
    || FindIndex(widgets, (w: Widget) => w.id == "series_settings").None?
  }

  /** Whether a series' metric column (`cols[1]`) is the one `key` names. */
  predicate MetricColumnIs(single: SingleSeries, key: Value, columnKey: Value -> string)
  {
    |single.cols| > 1 && Truthy(single.cols[1]) && Str(columnKey(single.cols[1])) == key
  }

  /** The widget `w` with its `initialKey` prop set to `key`. */
  function Focus(w: Widget, key: Value): Widget
  {
    w.(props := w.props["initialKey" := key])
  }

  /** `getStyleWidget`. `columnKey` and `seriesKey` stand for the library's
      `getColumnKey` and `keyForSingleSeries`. */
  function StyleWidget(current: Option<Widget>, widgets: seq<Widget>, series: seq<SingleSeries>,
                       computed: Props, columnKey: Value -> string, seriesKey: SingleSeries -> string)
    : (r: Option<Widget>)
    ensures StyleSuppressed(current, widgets, series) ==> r.None?
    ensures r.Some? ==> "initialKey" in r.value.props
    ensures r.Some? ==>
              exists i :: FirstWithId(widgets, i, "series_settings")
                && r.value == Focus(widgets[i], r.value.props["initialKey"])
    ensures !StyleSuppressed(current, widgets, series) && Get(current.value.props, "seriesKey") != Undefined
            ==> r.Some? && r.value.props["initialKey"] == Get(current.value.props, "seriesKey")
    ensures (!StyleSuppressed(current, widgets, series) && Get(current.value.props, "seriesKey") == Undefined
             && !Truthy(Get(current.value.props, "initialKey"))) ==> r.None?
    ensures (!StyleSuppressed(current, widgets, series) && Get(current.value.props, "seriesKey") == Undefined
             && HasBreakouts(computed)) ==> r.None?
    ensures (!StyleSuppressed(current, widgets, series) && Get(current.value.props, "seriesKey") == Undefined
             && Truthy(Get(current.value.props, "initialKey")) && !HasBreakouts(computed))
            ==> (r.Some? <==> exists n :: 0 <= n < |series|
                                && MetricColumnIs(series[n], Get(current.value.props, "initialKey"), columnKey))
    ensures r.Some? &&Get(current.value.props, "seriesKey") == Undefined ==>
              exists n :: 0 <= n < |series|
                && MetricColumnIs(series[n], Get(current.value.props, "initialKey"), columnKey)
                && (forall m :: 0 <= m < n ==> !MetricColumnIs(series[m], Get(current.value.props, "initialKey"), columnKey))
                && r.value.props["initialKey"] == Str(seriesKey(series[n]))
  {
    if StyleSuppressed(current, widgets, series) then None
    else
      var s := FindIndex(widgets, (w: Widget) => w.id == "series_settings").value;
      assert FirstWithId(widgets, s, "series_settings");
      var seriesSettingsWidget := widgets[s];
      var props := current.value.props;
      if Get(props, "seriesKey") != Undefined then
        Some(Focus(seriesSettingsWidget, Get(props, "seriesKey")))
      else if Truthy(Get(props, "initialKey")) then
        if HasBreakouts(computed) then None
        else
          var initialKey := Get(props, "initialKey");
          match FindIndex(series, single => MetricColumnIs(single, initialKey, columnKey))
          case Some(n) => Some(Focus(seriesSettingsWidget, Str(seriesKey(series[n]))))
          case None => None
      else None
  }
}
