/** The visualizer screen: one chart of a chosen x column against a chosen number column,
    with axis choices defaulted from the column types and a button that adds the chart to the
    report. Its chart data is `Charts.ChartData` with the x value kept as `rawKey`. */
module Visualizer {
  import opened Common
  import opened Charts

  /** Any column that is not a number column can go on the x axis. */
  predicate IsXOption(t: ColType) { t != NumberType }

  /** The x axis choices are exactly the columns that are not number columns, the y axis
      choices exactly the number columns: every column is offered on exactly one axis. */
  lemma AxisOptions(columns: seq<Column>)
    ensures forall c :: c in ColumnsOf(columns, IsXOption) <==> c in columns && c.colType != NumberType
    ensures forall c :: c in ColumnsOf(columns, IsMeasure) <==> c in columns && c.colType == NumberType
    ensures |ColumnsOf(columns, IsXOption)| + |ColumnsOf(columns, IsMeasure)| == |columns|
  {
    ColumnsOfSpec(columns, IsXOption);
    ColumnsOfSpec(columns, IsMeasure);
    OptionsSplit(columns);
  }

  lemma {:induction false} OptionsSplit(columns: seq<Column>)
    ensures |ColumnsOf(columns, IsXOption)| + |ColumnsOf(columns, IsMeasure)| == |columns|
  {
    if columns != [] {
      OptionsSplit(columns[1..]);
    }
  }

  /** Each of the first 15 points of the visualizer's chart is a group whose `rawKey` is the x
      value of the first record in that group. */
  lemma ShownGroupsKeepFirstRaw(data: seq<Row>, xKey: string, yKey: string, i: nat)
    requires i < |ChartSlices(data, xKey, yKey, RawOf(xKey))| && i < TopGroups
    ensures var p := ChartSlices(data, xKey, yKey, RawOf(xKey))[i];
      exists k :: (0 <= k < |data| && NameOf(xKey)(data[k]) == p.name && p.rawKey == Get(data[k], xKey)
        && forall h :: 0 <= h < k ==> NameOf(xKey)(data[h]) != p.name)
  {
    var g := Summary(data, NameOf(xKey), MetricOf(yKey), RawOf(xKey));
    ShownPointIsGroup(g, i);
    SummaryPoint(data, NameOf(xKey), MetricOf(yKey), RawOf(xKey), Truncate(SortByValue(g))[i]);
  }

  class VisualizerScreen {
    var chartType: ChartType
    var xAxisKey: string
    var dataKey: string
    var added: bool

    constructor()
      ensures chartType == Bar && xAxisKey == "" && dataKey == "" && !added
    {
      chartType := Bar;
      xAxisKey := "";
      dataKey := "";
      added := false;
    }

    /** The selection effect: with records and columns, an unset x key becomes the first string
        or date column and an unset y key the first number column, when there is one; keys
        already set stay. */
    method InitSelections(data: seq<Row>, columns: seq<Column>)
      modifies this`xAxisKey, this`dataKey
      ensures data == [] || columns == [] ==> xAxisKey == old(xAxisKey) && dataKey == old(dataKey)
      ensures data != [] && columns != [] ==>
        && xAxisKey == (match FindColumn(columns, IsCategory)
                        case Some(c) => if old(xAxisKey) == "" then c.key else old(xAxisKey)
                        case None => old(xAxisKey))
        && dataKey == (match FindColumn(columns, IsMeasure)
                       case Some(c) => if old(dataKey) == "" then c.key else old(dataKey)
                       case None => old(dataKey))
    {
      if |data| > 0 && |columns| > 0 {
        if xAxisKey == "" {
          var catCol := FindColumn(columns, IsCategory);
          if catCol.Some? {
            xAxisKey := catCol.value.key;
          }
        }
        if dataKey == "" {
          var numCol := FindColumn(columns, IsMeasure);
          if numCol.Some? {
            dataKey := numCol.value.key;
          }
        }
      }
    }

    /** `handleAddToReport`: nothing unless both keys are set; otherwise the chart of the
        current type titled `<y> by <x>`, and the button shows it was added. */
    method AddToReport() returns (r: Option<ChartConfig>)
      modifies this`added
      ensures r.None? <==> xAxisKey == "" || dataKey == ""
      ensures r.Some? ==> r.value == ChartConfig(chartType, xAxisKey, dataKey, dataKey + " by " + xAxisKey) && added
      ensures r.None? ==> added == old(added)
    {
      if xAxisKey == "" || dataKey == "" {
        return None;
      }
      r := Some(ChartConfig(chartType, xAxisKey, dataKey, dataKey + " by " + xAxisKey));
      added := true;
    }
  }

  /** After the selection effect on a table with a category column and a number column and no
      keys set, the chart can be added to the report, titled after those two columns. */
  method SelectThenAdd(data: seq<Row>, columns: seq<Column>) returns (r: Option<ChartConfig>)
    requires data != [] && FindColumn(columns, IsCategory).Some? && FindColumn(columns, IsMeasure).Some?
    requires FindColumn(columns, IsCategory).value.key != "" && FindColumn(columns, IsMeasure).value.key != ""
    ensures var x := FindColumn(columns, IsCategory).value.key;
      var y := FindColumn(columns, IsMeasure).value.key;
      r == Some(ChartConfig(Bar, x, y, y + " by " + x))
  {
    var screen := new VisualizerScreen();
    screen.InitSelections(data, columns);
    r := screen.AddToReport();
  }
}
