/**
 * `add_chart` as a decision: from the chart type, which data arrived, the
 * labels and the position of placeholder 1, either no chart at all or the
 * configured chart and where it goes.
 */
module Charts {
  import opened Outcomes
  import opened Json
  import opened Deck

  /** A configured chart and the box it is placed in. */
  datatype Placed = Placed(chart: Chart, box: Box)

  /** Where the chart goes when there is no placeholder 1: 1in, 2.5in, 6in wide, 3in high. */
  const FallbackBox: Box := Box(TenthsOfInch(10), TenthsOfInch(25), TenthsOfInch(60), TenthsOfInch(30))

  predicate IsPie(chartType: Json) {
    chartType == JString("pie")
  }

  predicate IsBarOrLine(chartType: Json) {
    chartType == JString("bar") || chartType == JString("line")
  }

  /**
   * The cases that print a warning and return without a chart: a pie without
   * labels or sizes, a bar or line chart without x or y, any other type.
   * Python's `None` is JSON `null` for the decoded arguments.
   */
  predicate NoChart(chartType: Json, x: Json, y: Option<seq<real>>, labels: Json, sizes: Option<seq<real>>) {
    if IsPie(chartType) then labels.JNull? || sizes.None?
    else if IsBarOrLine(chartType) then x.JNull? || y.None?
    else true
  }

  /** `XL_CHART_TYPE` chosen for a supported type. */
  function KindOf(chartType: Json): ChartKind {
    if chartType == JString("bar") then ClusteredColumn
    else if chartType == JString("line") then LineChart
    else PieChart
  }

  /** An axis title: set only from a truthy label, which must then be text. */
  function AxisTitle(axisLabel: Json): (r: Result<Option<string>, Fault>)
    ensures !Truthy(axisLabel) ==> r == Ok(None)
    ensures Truthy(axisLabel) && axisLabel.JString? ==> r == Ok(Some(axisLabel.s))
    ensures Truthy(axisLabel) && !axisLabel.JString? ==> r == Err(NotText)
  {
    if Truthy(axisLabel) then
      var t :- AsText(axisLabel);
      Ok(Some(t))
    else Ok(None)
  }

  /**
   * `add_chart(slide, chart_type, chart_title, x, y, xlabel, ylabel, labels, sizes)`,
   * with `placeholder` the box of `slide.placeholders[1]` when that lookup finds one.
   */
  function ChartFor(chartType: Json, title: Json, x: Json, y: Option<seq<real>>, xlabel: Json,
                    ylabel: Json, labels: Json, sizes: Option<seq<real>>, placeholder: Option<Box>)
    : (r: Result<Option<Placed>, Fault>)
    ensures NoChart(chartType, x, y, labels, sizes) <==> r == Ok(None)
    ensures r.Ok? && r.value.Some? ==>
      var c := r.value.value.chart;
      && (chartType == JString("bar") ==> c.kind == ClusteredColumn)
      && (chartType == JString("line") ==> c.kind == LineChart)
      && (chartType == JString("pie") ==> c.kind == PieChart)
      && title == JString(c.title)
      && !c.hasLegend && c.showValue
      && (c.pieLabels <==> IsPie(chartType))
      && c.values == (if IsPie(chartType) then sizes.value else y.value)
      && Iterate(if IsPie(chartType) then labels else x) == Some(c.categories)
      && r.value.value.box == placeholder.GetOr(FallbackBox)
      && (IsPie(chartType) ==> c.categoryAxisTitle.None? && c.valueAxisTitle.None?)
      && (IsBarOrLine(chartType) ==> AxisTitle(xlabel) == Ok(c.categoryAxisTitle)
                                     && AxisTitle(ylabel) == Ok(c.valueAxisTitle))
    ensures r.Err? ==> r.error == NotIterable || r.error == NotText
    ensures !NoChart(chartType, x, y, labels, sizes) ==>
              var data := if IsPie(chartType) then labels else x;
              && (Iterate(data).None? ==> r == Err(NotIterable))
              && (Iterate(data).Some? && !title.JString? ==> r == Err(NotText))
              && (r.Ok? <==> && Iterate(data).Some? && title.JString?
                             && (IsBarOrLine(chartType) ==> AxisTitle(xlabel).Ok? && AxisTitle(ylabel).Ok?))
  {
    if NoChart(chartType, x, y, labels, sizes) then Ok(None)
    else
      var pie := IsPie(chartType);
      var categories :- match Iterate(if pie then labels else x)
                        case None => Err(NotIterable)
                        case Some(cs) => Ok(cs);
      var values := if pie then sizes.value else y.value;
      var t :- AsText(title);
      var xTitle :- if pie then Ok(None) else AxisTitle(xlabel);
      var yTitle :- if pie then Ok(None) else AxisTitle(ylabel);
      var chart := Chart(KindOf(chartType), t, categories, values, false, true, pie, xTitle, yTitle);
      Ok(Some(Placed(chart, placeholder.GetOr(FallbackBox))))
  }

  /** A pie chart reads only its labels and sizes: the bar and line arguments make no difference. */
  lemma PieIgnoresAxes(title: Json, x: Json, x': Json, y: Option<seq<real>>, y': Option<seq<real>>,
                       xlabel: Json, xlabel': Json, ylabel: Json, ylabel': Json,
                       labels: Json, sizes: Option<seq<real>>, placeholder: Option<Box>)
    ensures ChartFor(JString("pie"), title, x, y, xlabel, ylabel, labels, sizes, placeholder)
         == ChartFor(JString("pie"), title, x', y', xlabel', ylabel', labels, sizes, placeholder)
  {
  }

  /** A bar or line chart reads only its x, y and axis labels: the pie arguments make no difference. */
  lemma BarOrLineIgnoresSlices(chartType: Json, title: Json, x: Json, y: Option<seq<real>>, xlabel: Json,
                               ylabel: Json, labels: Json, labels': Json, sizes: Option<seq<real>>,
                               sizes': Option<seq<real>>, placeholder: Option<Box>)
    requires IsBarOrLine(chartType)
    ensures ChartFor(chartType, title, x, y, xlabel, ylabel, labels, sizes, placeholder)
         == ChartFor(chartType, title, x, y, xlabel, ylabel, labels', sizes', placeholder)
  {
  }

  /**
   * Where placeholder 1 sits changes only where the chart goes: whether there
   * is a chart, the fault, and the chart itself are the same for any placement.
   */
  lemma PlacementOnlyMovesBox(chartType: Json, title: Json, x: Json, y: Option<seq<real>>, xlabel: Json,
                              ylabel: Json, labels: Json, sizes: Option<seq<real>>, p: Option<Box>, q: Option<Box>)
    ensures var a := ChartFor(chartType, title, x, y, xlabel, ylabel, labels, sizes, p);
            var b := ChartFor(chartType, title, x, y, xlabel, ylabel, labels, sizes, q);
            && a.Ok? == b.Ok?
            && (a.Err? ==> a == b)
            && (a.Ok? ==> a.value.None? == b.value.None?)
            && (a.Ok? && a.value.Some? ==> a.value.value.chart == b.value.value.chart)
  {
  }
}
