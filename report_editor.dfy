/** The report editor: the charts appended to the report and how each is drawn, the insertion
    of dashboard widgets and the current pivot view, the report templates offered during the
    analysis stage, and which of its three screens the editor shows. */
module ReportEditor {
  import opened Common
  import opened Charts
  import Pivot
  import Markdown

  /** A chart of the report. Absent axis keys are `""`, which the renderer treats alike. */
  datatype ReportChart = ReportChart(chartType: ChartType, title: string, xAxisKey: string, dataKey: string,
                                     pivotConfig: Option<Pivot.PivotConfig>)

  /** What the chart renderer draws for one chart. */
  datatype Rendered =
    | PivotView(title: string, rowLabels: seq<string>, colLabels: seq<string>, matrix: map<string, map<string, real>>)
    | ChartView(title: string, chartType: ChartType, points: seq<Point>)
    | NoView

  // ---------------------------------------------------------------- drawing a chart

  /** The view the renderer owes `chart`: a pivot chart with a configuration is the full
      matrix over the sorted labels; any other chart with both keys is every group of the
      records, in order of first appearance, neither sorted nor cut; anything else is nothing. */
  ghost predicate Shows(chart: ReportChart, data: seq<Row>, view: Rendered)
  {
    if chart.chartType == PivotChart && chart.pivotConfig.Some? then
      var cfg := chart.pivotConfig.value;
      && view.PivotView? && view.title == chart.title
      && view.rowLabels == Pivot.Labels(data, Pivot.TextOf(cfg.rowKey))
      && view.colLabels == Pivot.Labels(data, Pivot.TextOf(cfg.colKey))
      && view.matrix.Keys == (set r | r in view.rowLabels)
      && (forall r :: r in view.matrix ==> view.matrix[r].Keys == set c | c in view.colLabels)
      && (forall r, c :: r in view.rowLabels && c in view.colLabels ==>
            view.matrix[r][c] == Pivot.Aggregate(cfg.aggregation,
              Pivot.Group(data, Pivot.TextOf(cfg.rowKey), Pivot.TextOf(cfg.colKey), NumberOf(cfg.valueKey), r, c)))
    else if chart.xAxisKey != "" && chart.dataKey != "" then
      view == ChartView(chart.title, chart.chartType, Summary(data, NameOf(chart.xAxisKey), MetricOf(chart.dataKey), NoRaw()))
    else
      view == NoView
  }

  /** `ChartRenderer`: the pivot branch builds the matrix with no guard on the keys; the
      standard branch runs the grouping reduce and draws its result as it is. */
  method RenderChart(chart: ReportChart, data: seq<Row>) returns (view: Rendered)
    ensures Shows(chart, data, view)
  {
    if chart.chartType == PivotChart && chart.pivotConfig.Some? {
      var cfg := chart.pivotConfig.value;
      var matrix, rowLabels, colLabels := Pivot.BuildMatrix(data, cfg.rowKey, cfg.colKey, cfg.valueKey, cfg.aggregation);
      return PivotView(chart.title, rowLabels, colLabels, matrix);
    }
    if chart.xAxisKey != "" && chart.dataKey != "" {
      var points := GroupRows(data, NameOf(chart.xAxisKey), MetricOf(chart.dataKey), NoRaw());
      return ChartView(chart.title, chart.chartType, points);
    }
    return NoView;
  }

  /** A report chart draws the dashboard's groups before sorting and cutting: the dashboard
      chart on the same keys is exactly these points sorted and cut to the top 15, and the
      report chart, having nothing cut, keeps the whole total of the y column. */
  lemma ReportChartUncut(data: seq<Row>, xKey: string, yKey: string)
    requires xKey != "" && yKey != "" && data != []
    ensures var points := Summary(data, NameOf(xKey), MetricOf(yKey), NoRaw());
      && ChartSlices(data, xKey, yKey, NoRaw()) == Truncate(SortByValue(points))
      && SumValues(points) == Sum(Measures(data, MetricOf(yKey)))
  {
    SummaryTotal(data, NameOf(xKey), MetricOf(yKey), NoRaw());
  }

  /** The preview of the drafting screen: the report text rendered line by line, then every
      chart of the report drawn, in order. */
  method RenderReport(content: string, charts: seq<ReportChart>, data: seq<Row>)
    returns (blocks: seq<Markdown.Block>, views: seq<Rendered>)
    ensures blocks == Markdown.RenderMarkdown(content)
    ensures |views| == |charts|
    ensures forall i :: 0 <= i < |charts| ==> Shows(charts[i], data, views[i])
  {
    blocks := Markdown.RenderMarkdown(content);
    views := [];
    var i := 0;
    while i < |charts|
      invariant 0 <= i <= |charts| && |views| == i
      invariant forall j :: 0 <= j < i ==> Shows(charts[j], data, views[j])
    {
      var view := RenderChart(charts[i], data);
      views := views + [view];
      i := i + 1;
    }
  }

  // ---------------------------------------------------------------- inserting visuals

  /** An entry of the insert dialog: a dashboard widget, or the current pivot view. */
  datatype InsertItem = FromWidget(widget: ChartConfig) | FromPivot(config: Pivot.PivotConfig)

  /** The chart `handleInsert` hands to the report: a pivot entry becomes a pivot chart titled
      after its row and column keys; a widget is copied. A widget whose type is `pivot` takes
      the pivot branch without a configuration and fails reading it: no chart. */
  function InsertedChart(item: InsertItem): (r: Option<ReportChart>)
    ensures item.FromPivot? ==>
      && r.Some? && r.value.chartType == PivotChart && r.value.pivotConfig == Some(item.config)
      && r.value.title == "Pivot Analysis: " + item.config.rowKey + " vs " + item.config.colKey
    ensures item.FromWidget? ==> (r.Some? <==> item.widget.chartType != PivotChart)
    ensures item.FromWidget? && r.Some? ==>
      && r.value.pivotConfig.None?
      && r.value.chartType == item.widget.chartType && r.value.title == item.widget.title
      && r.value.xAxisKey == item.widget.xAxisKey && r.value.dataKey == item.widget.dataKey
  {
    match item
    case FromPivot(cfg) =>
      Some(ReportChart(PivotChart, "Pivot Analysis: " + cfg.rowKey + " vs " + cfg.colKey, "", "", Some(cfg)))
    case FromWidget(w) =>
      if w.chartType == PivotChart then None
      else Some(ReportChart(w.chartType, w.title, w.xAxisKey, w.dataKey, None))
  }

  /** An inserted pivot entry is drawn as the pivot screen's matrix on the same configuration. */
  lemma InsertedPivotShowsMatrix(cfg: Pivot.PivotConfig, data: seq<Row>, view: Rendered)
    requires Shows(InsertedChart(FromPivot(cfg)).value, data, view)
    ensures view.PivotView?
    ensures view.rowLabels == Pivot.Labels(data, Pivot.TextOf(cfg.rowKey))
    ensures view.colLabels == Pivot.Labels(data, Pivot.TextOf(cfg.colKey))
    ensures forall r, c :: r in view.rowLabels && c in view.colLabels ==>
      r in view.matrix && c in view.matrix[r] &&
      view.matrix[r][c] == Pivot.Aggregate(cfg.aggregation,
        Pivot.Group(data, Pivot.TextOf(cfg.rowKey), Pivot.TextOf(cfg.colKey), NumberOf(cfg.valueKey), r, c))
  {
  }

  /** An inserted widget with both keys is drawn as every group of its x key, summing its y key,
      under the widget's own title and type. */
  lemma InsertedWidgetShowsGroups(w: ChartConfig, data: seq<Row>, view: Rendered)
    requires w.chartType != PivotChart && w.xAxisKey != "" && w.dataKey != ""
    requires Shows(InsertedChart(FromWidget(w)).value, data, view)
    ensures view == ChartView(w.title, w.chartType, Summary(data, NameOf(w.xAxisKey), MetricOf(w.dataKey), NoRaw()))
  {
  }

  // ---------------------------------------------------------------- templates

  /** A report model the analysis screen offers. */
  datatype ReportTemplate = ReportTemplate(id: string, title: string, description: string, instruction: string, icon: string)

  function GeneralOverview(): ReportTemplate
  {
    ReportTemplate("default1", "General Overview", "A standard summary of the data.",
      "Write a comprehensive overview.", "general")
  }

  function KeyTrends(): ReportTemplate
  {
    ReportTemplate("default2", "Key Trends", "Focus on patterns and changes over time.",
      "Analyze trends and growth.", "trend")
  }

  /** The templates the loading effect settles on, given the suggestion service's answer: its
      templates; both defaults when it suggested none; the first default when it failed. Never
      empty, so the effect does not fire again. */
  function SettledTemplates(answer: Result<seq<ReportTemplate>>): (r: seq<ReportTemplate>)
    ensures r != []
    ensures answer.Ok? && answer.value != [] ==> r == answer.value
    ensures answer.Ok? && answer.value == [] ==> r == [GeneralOverview(), KeyTrends()]
    ensures answer.Err? ==> r == [GeneralOverview()]
  {
    match answer
    case Ok(ts) => if |ts| == 0 then [GeneralOverview(), KeyTrends()] else ts
    case Err(_) => [GeneralOverview()]
  }

  datatype Icon = TrendingUp | DollarSign | ShieldCheck | FileText

  /** `getIcon`: the trend, finance and audit icons by name, the document icon for anything else. */
  function IconOf(icon: string): (r: Icon)
    ensures r == TrendingUp <==> icon == "trend"
    ensures r == DollarSign <==> icon == "finance"
    ensures r == ShieldCheck <==> icon == "audit"
  {
    if icon == "trend" then TrendingUp
    else if icon == "finance" then DollarSign
    else if icon == "audit" then ShieldCheck
    else FileText
  }

  // ---------------------------------------------------------------- screens

  datatype Stage = Analysis | Drafting

  datatype Screen = EmptyState | ReadyToAnalyze | AnalysisReview | DraftView

  /** Which screen the editor shows: the empty state when there is neither text nor data; during
      analysis the review of the preliminary analysis once there is one, else the invitation to
      analyze; otherwise the drafting screen. */
  function ScreenOf(content: string, records: nat, stage: Stage, analysisContent: string): (s: Screen)
    ensures s == EmptyState <==> content == "" && records == 0
    ensures s == DraftView <==> (content != "" || records > 0) && stage == Drafting
    ensures s == AnalysisReview <==> (content != "" || records > 0) && stage == Analysis && analysisContent != ""
    ensures s == ReadyToAnalyze <==> (content != "" || records > 0) && stage == Analysis && analysisContent == ""
  {
    if content == "" && records == 0 then EmptyState
    else
      match stage
      case Analysis => if analysisContent != "" then AnalysisReview else ReadyToAnalyze
      case Drafting => DraftView
  }

  /** The editor's own state, with `charts` the report's chart list that the parent screen
      extends for every chart the editor hands it. */
  class ReportEditorScreen {
    var instructions: string
    var templates: seq<ReportTemplate>
    var loadingTemplates: bool
    var insertModalOpen: bool
    var charts: seq<ReportChart>

    constructor(charts: seq<ReportChart>)
      ensures this.charts == charts
      ensures instructions == "" && templates == [] && !loadingTemplates && !insertModalOpen
    {
      this.charts := charts;
      instructions := "";
      templates := [];
      loadingTemplates := false;
      insertModalOpen := false;
    }

    /** The template effect: during analysis, with records, no templates and no load under way,
        it asks for templates and settles on `SettledTemplates` of the answer; otherwise it does
        nothing. */
    method LoadTemplates(stage: Stage, data: seq<Row>, answer: Result<seq<ReportTemplate>>)
      modifies this`templates, this`loadingTemplates
      ensures var fires := stage == Analysis && |data| > 0 && old(templates) == [] && !old(loadingTemplates);
        && (fires ==> templates == SettledTemplates(answer) && !loadingTemplates)
        && (!fires ==> templates == old(templates) && loadingTemplates == old(loadingTemplates))
    {
      if stage == Analysis && |data| > 0 && |templates| == 0 && !loadingTemplates {
        loadingTemplates := true;
        match answer {
          case Ok(temps) =>
            if |temps| == 0 {
              templates := [GeneralOverview(), KeyTrends()];
            } else {
              templates := temps;
            }
          case Err(_) =>
            templates := [GeneralOverview()];
        }
        loadingTemplates := false;
      }
    }

    /** `handleTemplateClick`: the template's instruction becomes the instructions. */
    method TemplateClick(template: ReportTemplate)
      modifies this`instructions
      ensures instructions == template.instruction
    {
      instructions := template.instruction;
    }

    method OpenInsertDialog()
      modifies this`insertModalOpen
      ensures insertModalOpen
    {
      insertModalOpen := true;
    }

    /** `handleInsert`: the chart for the entry is appended to the report and the dialog closes;
        for the entry that fails, nothing changes. */
    method HandleInsert(item: InsertItem)
      modifies this`charts, this`insertModalOpen
      ensures InsertedChart(item).Some? ==> charts == old(charts) + [InsertedChart(item).value] && !insertModalOpen
      ensures InsertedChart(item).None? ==> charts == old(charts) && insertModalOpen == old(insertModalOpen)
    {
      match item {
        case FromPivot(cfg) =>
          charts := charts + [ReportChart(PivotChart, "Pivot Analysis: " + cfg.rowKey + " vs " + cfg.colKey, "", "", Some(cfg))];
          insertModalOpen := false;
        case FromWidget(w) =>
          if w.chartType != PivotChart {
            charts := charts + [ReportChart(w.chartType, w.title, w.xAxisKey, w.dataKey, None)];
            insertModalOpen := false;
          }
      }
    }
  }

  /** Loading templates twice on an editor: the first answer is the one kept. */
  method TemplatesLoadOnce(data: seq<Row>, first: Result<seq<ReportTemplate>>, second: Result<seq<ReportTemplate>>)
    returns (shown: seq<ReportTemplate>)
    requires |data| > 0
    ensures shown == SettledTemplates(first)
  {
    var screen := new ReportEditorScreen([]);
    screen.LoadTemplates(Analysis, data, first);
    screen.LoadTemplates(Analysis, data, second);
    shown := screen.templates;
  }

  /** Inserting a dashboard widget into a report and drawing the report's last chart draws every
      group of the widget's x key under the widget's title. */
  method InsertThenRender(charts: seq<ReportChart>, w: ChartConfig, data: seq<Row>) returns (view: Rendered)
    requires w.chartType != PivotChart && w.xAxisKey != "" && w.dataKey != ""
    ensures view == ChartView(w.title, w.chartType, Summary(data, NameOf(w.xAxisKey), MetricOf(w.dataKey), NoRaw()))
  {
    var screen := new ReportEditorScreen(charts);
    screen.OpenInsertDialog();
    screen.HandleInsert(FromWidget(w));
    view := RenderChart(screen.charts[|screen.charts| - 1], data);
    InsertedWidgetShowsGroups(w, data, view);
  }
}
