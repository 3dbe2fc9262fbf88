/** The dashboard screen: the widgets it shows (the suggested ones, or a fallback built from
    the column types when there are none) and the KPI totals above them. The chart data of each
    widget is `Charts.ChartData` without a raw key. */
module Dashboard {
  import opened Common
  import opened Charts
  import Pivot

  // ---------------------------------------------------------------- fallback widgets

  /** The widgets the heuristic proposes for `columns`: on the first category column, a bar
      and a line of the first number column; an area of the second number column when there is
      one; a bar on the second category column when there is one. Nothing without a number
      column and a category column. */
  function Fallback(columns: seq<Column>): seq<ChartConfig>
  {
    var nums := ColumnsOf(columns, IsMeasure);
    var cats := ColumnsOf(columns, IsCategory);
    if nums == [] || cats == [] then []
    else
      [ChartConfig(Bar, cats[0].key, nums[0].key, nums[0].caption + " by " + cats[0].caption),
       ChartConfig(LineChart, cats[0].key, nums[0].key, nums[0].caption + " Trend")]
      + (if |nums| > 1 then [ChartConfig(Area, cats[0].key, nums[1].key, nums[1].caption + " Analysis")] else [])
      + (if |cats| > 1 then [ChartConfig(Bar, cats[1].key, nums[0].key, nums[0].caption + " by " + cats[1].caption)] else [])
  }

  /** The fallback is empty exactly when the columns lack a number column or a category
      column, and otherwise holds two to four widgets: one more for a second number column, one
      more for a second category column. */
  lemma FallbackSize(columns: seq<Column>)
    ensures var nums := ColumnsOf(columns, IsMeasure);
      var cats := ColumnsOf(columns, IsCategory);
      && (Fallback(columns) == [] <==>
            (forall c :: c in columns ==> !IsMeasure(c.colType)) || (forall c :: c in columns ==> !IsCategory(c.colType)))
      && (Fallback(columns) != [] ==>
            |Fallback(columns)| == 2 + (if |nums| > 1 then 1 else 0) + (if |cats| > 1 then 1 else 0)
            && 2 <= |Fallback(columns)| <= 4)
  {
    FindIsFirstOfFilter(columns, IsMeasure);
    FindIsFirstOfFilter(columns, IsCategory);
  }

  /** Every fallback widget puts a category column on the x axis and a number column on the y
      axis. */
  lemma FallbackAxes(columns: seq<Column>)
    ensures forall w :: w in Fallback(columns) ==>
      && (exists c :: c in columns && IsCategory(c.colType) && c.key == w.xAxisKey)
      && (exists c :: c in columns && IsMeasure(c.colType) && c.key == w.dataKey)
  {
    var nums := ColumnsOf(columns, IsMeasure);
    var cats := ColumnsOf(columns, IsCategory);
    ColumnsOfSpec(columns, IsMeasure);
    ColumnsOfSpec(columns, IsCategory);
    var f := Fallback(columns);
    forall w | w in f
      ensures && (exists c :: c in columns && IsCategory(c.colType) && c.key == w.xAxisKey)
              && (exists c :: c in columns && IsMeasure(c.colType) && c.key == w.dataKey)
    {
      var i :| 0 <= i < |f| && f[i] == w;
      var cx := if i == 3 || (i == 2 && |nums| == 1) then cats[1] else cats[0];
      var cy := if i == 2 && |nums| > 1 then nums[1] else nums[0];
      assert cx in cats && cy in nums;
      assert w.xAxisKey == cx.key && w.dataKey == cy.key;
    }
  }

  /** The first two fallback widgets are the bar and the line of the first number column over
      the first category column, as `find` would pick them. */
  lemma FallbackLeads(columns: seq<Column>)
    requires FindColumn(columns, IsMeasure).Some? && FindColumn(columns, IsCategory).Some?
    ensures var num := FindColumn(columns, IsMeasure).value;
      var cat := FindColumn(columns, IsCategory).value;
      && |Fallback(columns)| >= 2
      && Fallback(columns)[0] == ChartConfig(Bar, cat.key, num.key, num.caption + " by " + cat.caption)
      && Fallback(columns)[1] == ChartConfig(LineChart, cat.key, num.key, num.caption + " Trend")
  {
    FindIsFirstOfFilter(columns, IsMeasure);
    FindIsFirstOfFilter(columns, IsCategory);
  }

  // ---------------------------------------------------------------- KPIs

  datatype KpiIcon = DollarSign | Hash

  /** One KPI card: the column's label, the column's total and its icon. */
  datatype Kpi = Kpi(caption: string, total: int, icon: KpiIcon)

  /** How many number columns get a KPI card. */
  const KpiCount: nat := 4

  /** A total above this shows the dollar icon. */
  const LargeTotal: int := 100000

  /** `data.reduce((sum, row) => sum + (Number(row[key]) || 0), 0)`. */
  function ColumnTotal(data: seq<Row>, key: string): int
  {
    Sum(Measures(data, NumberOf(key)))
  }

  /** The KPI cards: one per number column among the first four, in column order. */
  function Kpis(data: seq<Row>, columns: seq<Column>): (r: seq<Kpi>)
    ensures |r| <= KpiCount
  {
    var nums := ColumnsOf(columns, IsMeasure);
    var shown := if |nums| > KpiCount then nums[..KpiCount] else nums;
    seq(|shown|, i requires 0 <= i < |shown| =>
      var total := ColumnTotal(data, shown[i].key);
      Kpi(shown[i].caption, total, if total > LargeTotal then DollarSign else Hash))
  }

  /** The cards cover the first four number columns, in order, each labelled by its column,
      totalling that column and showing the dollar icon exactly above 100000. */
  lemma KpisSpec(data: seq<Row>, columns: seq<Column>)
    ensures var nums := ColumnsOf(columns, IsMeasure);
      var r := Kpis(data, columns);
      && |r| == (if |nums| < KpiCount then |nums| else KpiCount)
      && forall i :: 0 <= i < |r| ==>
        && r[i].caption == nums[i].caption
        && r[i].total == ColumnTotal(data, nums[i].key)
        && (r[i].icon == DollarSign <==> r[i].total > LargeTotal)
  {
  }

  /** A column's total grows by each appended record's `Number(v) || 0`. */
  lemma ColumnTotalAppend(data: seq<Row>, more: seq<Row>, key: string)
    ensures ColumnTotal(data + more, key) == ColumnTotal(data, key) + ColumnTotal(more, key)
  {
    MeasuresAppend(data, more, NumberOf(key));
    SumAppend(Measures(data, NumberOf(key)), Measures(more, NumberOf(key)));
  }

  /** A KPI total is the grand total of a pivot table summing the same column, whatever the
      pivot's row and column keys. */
  lemma KpiIsPivotGrandTotal(data: seq<Row>, key: string, rowKey: string, colKey: string)
    ensures ColumnTotal(data, key) as real
      == Pivot.Table(Pivot.Labels(data, Pivot.TextOf(rowKey)), Pivot.Labels(data, Pivot.TextOf(colKey)),
           (r, c) => Pivot.Aggregate(Pivot.Total, Pivot.Group(data, Pivot.TextOf(rowKey), Pivot.TextOf(colKey), NumberOf(key), r, c)))
  {
    Pivot.TotalCellsAddUp(data, Pivot.TextOf(rowKey), Pivot.TextOf(colKey), NumberOf(key));
  }

  // ---------------------------------------------------------------- the screen

  class DashboardScreen {
    var widgets: seq<ChartConfig>
    var loading: bool

    constructor()
      ensures widgets == [] && !loading
    {
      widgets := [];
      loading := false;
    }

    /** `handleGenerateDashboard`: the suggested widgets, or the fallback when the suggestion
        came back empty (an empty `suggested` also stands for a failed request). */
    method GenerateDashboard(columns: seq<Column>, suggested: seq<ChartConfig>)
      modifies this
      ensures widgets == (if suggested != [] then suggested else Fallback(columns))
      ensures !loading
    {
      loading := true;
      var configs := suggested;
      if configs == [] {
        var nums := ColumnsOf(columns, IsMeasure);
        var cats := ColumnsOf(columns, IsCategory);
        if |nums| > 0 && |cats| > 0 {
          configs := [ChartConfig(Bar, cats[0].key, nums[0].key, nums[0].caption + " by " + cats[0].caption),
                      ChartConfig(LineChart, cats[0].key, nums[0].key, nums[0].caption + " Trend")];
          if |nums| > 1 {
            configs := configs + [ChartConfig(Area, cats[0].key, nums[1].key, nums[1].caption + " Analysis")];
          }
          if |cats| > 1 {
            configs := configs + [ChartConfig(Bar, cats[1].key, nums[0].key, nums[0].caption + " by " + cats[1].caption)];
          }
        }
      }
      widgets := configs;
      loading := false;
    }

    /** The effect on new data: the widgets are generated only when there are records and no
        widgets yet; otherwise nothing changes. */
    method DataChanged(data: seq<Row>, columns: seq<Column>, suggested: seq<ChartConfig>)
      modifies this
      ensures |data| > 0 && old(widgets) == [] ==>
        widgets == (if suggested != [] then suggested else Fallback(columns)) && !loading
      ensures !(|data| > 0 && old(widgets) == []) ==> widgets == old(widgets) && loading == old(loading)
    {
      if |data| > 0 && |widgets| == 0 {
        GenerateDashboard(columns, suggested);
      }
    }

    /** The sync effect: what the parent's listener receives, if anything. */
    function Synced(hasListener: bool): (r: Option<seq<ChartConfig>>)
      reads this
      ensures r.Some? <==> hasListener && widgets != []
      ensures r.Some? ==> r.value == widgets
    {
      if hasListener && |widgets| > 0 then Some(widgets) else None
    }
  }
}
