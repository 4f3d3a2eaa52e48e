/** The six chart callbacks: each filters the table with the selector
    values it receives and returns the rows it plots together with the
    captions it sets. The plotting itself is not modelled. */
module Views {
  import opened Wrappers
  import opened Records
  import opened Frames
  import opened Filter
  import opened Text
  import opened Titles

  /** The metric columns offered by the X and Y dropdowns. */
  const Features: seq<string> :=
    ["flows", "bytes", "packets", "flow_duration", "communications", "country"]

  datatype Chart = BoxPlot | SunburstPlot | ScatterPlot | HeatmapPlot | PolarPlot | HistogramPlot

  /** What a callback decides about its figure: the rows handed to plotly
      and the captions written by `update_layout`. */
  datatype Figure = Figure(chart: Chart, rows: seq<Record>, captions: Captions)

  function UpdateBoxPlot(
    t: seq<Record>, startDate: Option<string>, endDate: Option<string>,
    selectedBoxX: string, selectedY: string, selectedLabel: Selector, selectedHourGroup: Selector)
    : (r: Result<Figure, FilterError>)
    ensures r.Failure? <==> !Truthy(startDate) && !Truthy(endDate)
    ensures r.Success? ==> forall x :: x in r.value.rows <==>
      x in t && Admits(Query(startDate, endDate, selectedLabel, selectedHourGroup), true, x)
    ensures r.Success? ==> '_' !in r.value.captions.title
    ensures r.Success? ==> (r.value.rows
      == ApplyFilter(t, Query(startDate, endDate, selectedLabel, selectedHourGroup), true).value)
    ensures r.Success? ==> r.value.chart == BoxPlot
    ensures r.Success? ==> (r.value.captions.title
      == Replace(selectedBoxX, '_', ' ') + " vs. " + Replace(selectedY, '_', ' '))
    ensures r.Success? ==> r.value.captions.xAxis == Some(Replace(selectedBoxX, '_', ' '))
    ensures r.Success? ==> r.value.captions.yAxis == Some(Replace(selectedY, '_', ' '))
    ensures r.Success? ==> r.value.captions.colorBar.None?
  {
    var filtered := ApplyFilter(t, Query(startDate, endDate, selectedLabel, selectedHourGroup), true);
    if filtered.Failure? then Failure(filtered.error)
    else Success(Figure(BoxPlot, filtered.value, BoxCaptions(selectedBoxX, selectedY)))
  }

  function UpdateSunburstPlot(
    t: seq<Record>, startDate: Option<string>, endDate: Option<string>,
    selectedY: string, selectedLabel: Selector, selectedHourGroup: Selector)
    : (r: Result<Figure, FilterError>)
    ensures r.Failure? <==> !Truthy(startDate) && !Truthy(endDate)
    ensures r.Success? ==> forall x :: x in r.value.rows <==>
      x in t && Admits(Query(startDate, endDate, selectedLabel, selectedHourGroup), true, x)
    ensures r.Success? ==> '_' !in r.value.captions.title
    ensures r.Success? ==> (r.value.rows
      == ApplyFilter(t, Query(startDate, endDate, selectedLabel, selectedHourGroup), true).value)
    ensures r.Success? ==> r.value.chart == SunburstPlot
    ensures r.Success? ==> r.value.captions.title == Replace(selectedY, '_', ' ')
    ensures r.Success? ==> r.value.captions.colorBar == Some(Replace(selectedY, '_', ' '))
    ensures r.Success? ==> r.value.captions.xAxis.None? && r.value.captions.yAxis.None?
  {
    var filtered := ApplyFilter(t, Query(startDate, endDate, selectedLabel, selectedHourGroup), true);
    if filtered.Failure? then Failure(filtered.error)
    else Success(Figure(SunburstPlot, filtered.value, SunburstCaptions(selectedY)))
  }

  function UpdateScatterPlot(
    t: seq<Record>, startDate: Option<string>, endDate: Option<string>,
    selectedX: string, selectedY: string, selectedLabel: Selector, selectedHourGroup: Selector)
    : (r: Result<Figure, FilterError>)
    ensures r.Failure? <==> !Truthy(startDate) && !Truthy(endDate)
    ensures r.Success? ==> forall x :: x in r.value.rows <==>
      x in t && Admits(Query(startDate, endDate, selectedLabel, selectedHourGroup), true, x)
    ensures r.Success? ==> '_' !in r.value.captions.title
    ensures r.Success? ==> (r.value.rows
      == ApplyFilter(t, Query(startDate, endDate, selectedLabel, selectedHourGroup), true).value)
    ensures r.Success? ==> r.value.chart == ScatterPlot
    ensures r.Success? ==> (r.value.captions.title
      == Replace(selectedX, '_', ' ') + " vs. " + Replace(selectedY, '_', ' '))
    ensures r.Success? ==> r.value.captions.xAxis == Some(Replace(selectedX, '_', ' '))
    ensures r.Success? ==> r.value.captions.yAxis == Some(Replace(selectedY, '_', ' '))
    ensures r.Success? ==> r.value.captions.colorBar.None?
  {
    var filtered := ApplyFilter(t, Query(startDate, endDate, selectedLabel, selectedHourGroup), true);
    if filtered.Failure? then Failure(filtered.error)
    else Success(Figure(ScatterPlot, filtered.value, ScatterCaptions(selectedX, selectedY)))
  }

  /** The heatmap callback has no working-hour input; its query carries the
      dropdown's default, which its filter never reads. */
  function UpdateHeatmapPlot(
    t: seq<Record>, startDate: Option<string>, endDate: Option<string>, selectedLabel: Selector)
    : (r: Result<Figure, FilterError>)
    ensures r.Failure? <==> !Truthy(startDate) && !Truthy(endDate)
    ensures r.Success? ==> forall x :: x in r.value.rows <==>
      x in t && DateMatches(startDate, endDate, x.date) && SelectedBy(selectedLabel, x.labels)
    ensures r.Success? ==> (r.value.rows
      == ApplyFilter(t, Query(startDate, endDate, selectedLabel, One(AllGroups)), false).value)
    ensures r.Success? ==> r.value.chart == HeatmapPlot
    ensures r.Success? ==> r.value.captions.title == "working hour group vs. day group"
    ensures r.Success? ==> r.value.captions.xAxis == Some("working hour group")
    ensures r.Success? ==> r.value.captions.yAxis == Some("day group")
    ensures r.Success? ==> r.value.captions.colorBar.None?
  {
    var filtered := ApplyFilter(t, Query(startDate, endDate, selectedLabel, One(AllGroups)), false);
    if filtered.Failure? then Failure(filtered.error)
    else Success(Figure(HeatmapPlot, filtered.value, HeatmapCaptions()))
  }

  function UpdatePolarPlot(
    t: seq<Record>, startDate: Option<string>, endDate: Option<string>,
    selectedY: string, selectedLabel: Selector, selectedHourGroup: Selector)
    : (r: Result<Figure, FilterError>)
    ensures r.Failure? <==> !Truthy(startDate) && !Truthy(endDate)
    ensures r.Success? ==> forall x :: x in r.value.rows <==>
      x in t && Admits(Query(startDate, endDate, selectedLabel, selectedHourGroup), true, x)
    ensures r.Success? && NoSpace(selectedY) ==> r.value.captions.title == selectedY + " vs. time"
    ensures r.Success? ==> (r.value.rows
      == ApplyFilter(t, Query(startDate, endDate, selectedLabel, selectedHourGroup), true).value)
    ensures r.Success? ==> (var n := |r.value.captions.title| - 9;
      && n >= 0 && r.value.captions.title[n..] == " vs. time"
      && Tidy(r.value.captions.title[..n]) && Words(r.value.captions.title[..n]) == Words(selectedY))
    ensures r.Success? ==> r.value.chart == PolarPlot
    ensures r.Success? ==> r.value.captions.xAxis.None? && r.value.captions.yAxis.None?
    ensures r.Success? ==> r.value.captions.colorBar.None?
  {
    var filtered := ApplyFilter(t, Query(startDate, endDate, selectedLabel, selectedHourGroup), true);
    if filtered.Failure? then Failure(filtered.error)
    else Success(Figure(PolarPlot, filtered.value, PolarCaptions(selectedY)))
  }

  function UpdateHistPlot(
    t: seq<Record>, startDate: Option<string>, endDate: Option<string>,
    selectedX: string, selectedLabel: Selector, selectedHourGroup: Selector)
    : (r: Result<Figure, FilterError>)
    ensures r.Failure? <==> !Truthy(startDate) && !Truthy(endDate)
    ensures r.Success? ==> forall x :: x in r.value.rows <==>
      x in t && Admits(Query(startDate, endDate, selectedLabel, selectedHourGroup), true, x)
    ensures r.Success? && NoSpace(selectedX) ==> r.value.captions.title == selectedX + " vs. count"
    ensures r.Success? ==> (r.value.rows
      == ApplyFilter(t, Query(startDate, endDate, selectedLabel, selectedHourGroup), true).value)
    ensures r.Success? ==> (&& r.value.captions.xAxis.Some?
      && r.value.captions.title == r.value.captions.xAxis.value + " vs. count"
      && Tidy(r.value.captions.xAxis.value) && Words(r.value.captions.xAxis.value) == Words(selectedX))
    ensures r.Success? ==> r.value.chart == HistogramPlot
    ensures r.Success? && NoSpace(selectedX) ==> r.value.captions.xAxis == Some(selectedX)
    ensures r.Success? ==> r.value.captions.yAxis == Some("count") && r.value.captions.colorBar.None?
  {
    var filtered := ApplyFilter(t, Query(startDate, endDate, selectedLabel, selectedHourGroup), true);
    if filtered.Failure? then Failure(filtered.error)
    else Success(Figure(HistogramPlot, filtered.value, HistogramCaptions(selectedX)))
  }

  /** One selector change gives the five filtered charts the very same rows,
      in the same order; the heatmap's rows contain them. */
  lemma ChartsShareRows(
    t: seq<Record>, startDate: Option<string>, endDate: Option<string>,
    boxX: string, x: string, y: string, selectedLabel: Selector, selectedHourGroup: Selector)
    requires Truthy(startDate) || Truthy(endDate)
    ensures
      var rows := UpdateBoxPlot(t, startDate, endDate, boxX, y, selectedLabel, selectedHourGroup).value.rows;
      && UpdateSunburstPlot(t, startDate, endDate, y, selectedLabel, selectedHourGroup).value.rows == rows
      && UpdateScatterPlot(t, startDate, endDate, x, y, selectedLabel, selectedHourGroup).value.rows == rows
      && UpdatePolarPlot(t, startDate, endDate, y, selectedLabel, selectedHourGroup).value.rows == rows
      && UpdateHistPlot(t, startDate, endDate, x, selectedLabel, selectedHourGroup).value.rows == rows
      && IsSubsequence(rows, UpdateHeatmapPlot(t, startDate, endDate, selectedLabel).value.rows)
  {
    var q := Query(startDate, endDate, selectedLabel, selectedHourGroup);
    HourStepNarrowsHeatmap(t, q);
    HeatmapIgnoresHourGroups(t, q, One(AllGroups));
  }

  /** Box, sunburst and scatter turn every underscore of a column name into a
      space; polar and histogram split on whitespace and keep it. */
  lemma UnderscoresByChart(x: string, y: string)
    requires NoSpace(y) && '_' in y
    ensures '_' !in BoxCaptions(x, y).title && '_' !in ScatterCaptions(x, y).title
    ensures '_' !in SunburstCaptions(y).title
    ensures '_' in PolarCaptions(y).title && '_' in HistogramCaptions(y).title
  {
    var i :| 0 <= i < |y| && y[i] == '_';
    assert PolarCaptions(y).title[i] == '_';
    assert HistogramCaptions(y).title[i] == '_';
  }

  /** Every metric column is a single word, so the polar and histogram
      titles quote it verbatim. */
  lemma FeatureTitlesVerbatim(f: string)
    requires f in Features
    ensures PolarCaptions(f).title == f + " vs. time"
    ensures HistogramCaptions(f).title == f + " vs. count"
  {
    assert NoSpace(f);
  }
}
