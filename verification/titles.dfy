/** The title and axis captions each chart callback writes into its figure. */
module Titles {
  import opened Wrappers
  import opened Text

  /** The captions of one figure; `None` where the callback sets none. */
  datatype Captions = Captions(
    title: string,
    xAxis: Option<string>,
    yAxis: Option<string>,
    colorBar: Option<string>)

  /** `' '.join(field.split('_'))`, as the box, sunburst and scatter
      callbacks format a column name. */
  function SpaceUnderscores(field: string): (text: string)
    ensures text == Replace(field, '_', ' ')
    ensures |text| == |field| && '_' !in text
  {
    SplitJoinReplaces(field, '_', ' ');
    Join(SplitOn(field, '_'), " ")
  }

  lemma CollapseKeepsWords(field: string)
    ensures NoSpace(field) ==> Join(Words(field), " ") == field
    ensures Words(Join(Words(field), " ")) == Words(field)
  {
    WordsOfJoin(Words(field));
    if NoSpace(field) {
      WordsOfWord(field);
    }
  }

  /** `' '.join(field.split())`, as the polar and histogram callbacks format
      a column name: whitespace runs become one space, underscores stay. */
  function CollapseSpaces(field: string): (text: string)
    ensures NoSpace(field) ==> text == field
    ensures Words(text) == Words(field)
    ensures Tidy(text)
  {
    CollapseKeepsWords(field);
    JoinTidy(Words(field));
    Join(Words(field), " ")
  }

  /** The collapsed caption is the one tidy string with the column name's words. */
  lemma CollapseSpacesUnique(field: string, u: string)
    ensures u == CollapseSpaces(field) <==> Tidy(u) && Words(u) == Words(field)
  {
    if Tidy(u) && Words(u) == Words(field) {
      TidyIsJoinedWords(u);
    }
  }

  /** `update_box_plot`: "X vs. Y", with both axes titled. */
  function BoxCaptions(x: string, y: string): (c: Captions)
    ensures c.title == Replace(x, '_', ' ') + " vs. " + Replace(y, '_', ' ')
    ensures c.xAxis == Some(Replace(x, '_', ' ')) && c.yAxis == Some(Replace(y, '_', ' '))
    ensures '_' !in c.title
  {
    var xText := SpaceUnderscores(x);
    var yText := SpaceUnderscores(y);
    Captions(xText + " vs. " + yText, Some(xText), Some(yText), None)
  }

  /** `update_sunburst_plot`: the metric alone, also on the colour bar. */
  function SunburstCaptions(y: string): (c: Captions)
    ensures c.title == Replace(y, '_', ' ')
    ensures c.colorBar == Some(c.title) && c.xAxis.None? && c.yAxis.None?
    ensures '_' !in c.title
  {
    var yText := SpaceUnderscores(y);
    Captions(yText, None, None, Some(yText))
  }

  /** `update_scatter_plot`: "X vs. Y", with both axes titled. */
  function ScatterCaptions(x: string, y: string): (c: Captions)
    ensures c.title == Replace(x, '_', ' ') + " vs. " + Replace(y, '_', ' ')
    ensures c.xAxis == Some(Replace(x, '_', ' ')) && c.yAxis == Some(Replace(y, '_', ' '))
    ensures '_' !in c.title
  {
    var yText := SpaceUnderscores(y);
    var xText := SpaceUnderscores(x);
    Captions(xText + " vs. " + yText, Some(xText), Some(yText), None)
  }

  lemma ReplaceUnderscoresInColumns()
    ensures Replace("working_hour_group", '_', ' ') == "working hour group"
    ensures Replace("day_group", '_', ' ') == "day group"
  {
    var a := Replace("working_hour_group", '_', ' ');
    forall i | 0 <= i < |a|
      ensures a[i] == "working hour group"[i]
    {
    }
    var b := Replace("day_group", '_', ' ');
    forall i | 0 <= i < |b|
      ensures b[i] == "day group"[i]
    {
    }
  }

  /** `update_heatmap_plot`: fixed captions, the ones the box template gives
      for the heatmap's two columns. */
  function HeatmapCaptions(): (c: Captions)
    ensures c.title == Replace("working_hour_group", '_', ' ') + " vs. " + Replace("day_group", '_', ' ')
    ensures c.xAxis == Some(Replace("working_hour_group", '_', ' '))
    ensures c.yAxis == Some(Replace("day_group", '_', ' '))
  {
    ReplaceUnderscoresInColumns();
    Captions("working hour group vs. day group", Some("working hour group"), Some("day group"), None)
  }

  /** `update_polar_plot`: "Y vs. time"; underscores in Y are kept. */
  function PolarCaptions(y: string): (c: Captions)
    ensures NoSpace(y) ==> c.title == y + " vs. time"
    ensures |c.title| >= 9 && c.title[|c.title| - 9..] == " vs. time"
    ensures Tidy(c.title[..|c.title| - 9]) && Words(c.title[..|c.title| - 9]) == Words(y)
    ensures c.xAxis.None? && c.yAxis.None? && c.colorBar.None?
  {
    var yText := CollapseSpaces(y);
    assert (yText + " vs. time")[..|yText|] == yText;
    Captions(yText + " vs. time", None, None, None)
  }

  /** `update_hist_plot`: "X vs. count", the y axis always "count";
      underscores in X are kept. */
  function HistogramCaptions(x: string): (c: Captions)
    ensures NoSpace(x) ==> c.title == x + " vs. count" && c.xAxis == Some(x)
    ensures c.xAxis.Some? && c.title == c.xAxis.value + " vs. count"
    ensures Tidy(c.xAxis.value) && Words(c.xAxis.value) == Words(x)
    ensures c.yAxis == Some("count") && c.colorBar.None?
  {
    var xText := CollapseSpaces(x);
    Captions(xText + " vs. count", Some(xText), Some("count"), None)
  }
}
