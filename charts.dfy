/** Chart data shared by the dashboard, the visualizer and the report editor: records grouped
    by their x value (`Unknown` when it is falsy), the numeric y values summed per group, the
    groups sorted by total, largest first, and cut to the top 15 plus an `Others` entry. */
module Charts {
  import opened Common

  datatype ChartType = Bar | LineChart | Pie | Area | Scatter | Radar | PivotChart

  /** A chart request as the screens hand it to the report. */
  datatype ChartConfig = ChartConfig(chartType: ChartType, xAxisKey: string, dataKey: string, title: string)

  /** One entry of chart data: the group name, its total and, in the visualizer, the x value
      of the group's first record (`undefined` elsewhere and for `Others`). */
  datatype Point = Point(name: string, value: int, rawKey: Value)

  /** How many groups a chart shows before the rest is folded into `Others`. */
  const TopGroups: nat := 15

  /** `curr[xKey] ? String(curr[xKey]) : 'Unknown'`. */
  function NameOf(xKey: string): Row -> string
  {
    d => if Truthy(Get(d, xKey)) then Stringify(Get(d, xKey)) else "Unknown"
  }

  /** `typeof curr[yKey] === 'number' ? curr[yKey] : 0`. */
  function MetricOf(yKey: string): Row -> int
  {
    d => MetricValue(Get(d, yKey))
  }

  /** The visualizer's `rawKey`: the x value itself. */
  function RawOf(xKey: string): Row -> Value
  {
    d => Get(d, xKey)
  }

  /** Points built without a `rawKey` read it as `undefined`. */
  function NoRaw(): Row -> Value
  {
    d => Undefined
  }

  // ---------------------------------------------------------------- the reference grouping

  /** The metrics of the records named `n`, in record order. */
  function Metrics(data: seq<Row>, nameOf: Row -> string, metricOf: Row -> int, n: string): seq<int>
  {
    if data == [] then []
    else
      var last := data[|data| - 1];
      Metrics(data[..|data| - 1], nameOf, metricOf, n) + if nameOf(last) == n then [metricOf(last)] else []
  }

  /** The raw x value of the first record named `n`. */
  function FirstRaw(data: seq<Row>, nameOf: Row -> string, rawOf: Row -> Value, n: string): Value
  {
    if data == [] then Undefined
    else
      var init := data[..|data| - 1];
      var last := data[|data| - 1];
      if n in Project(init, nameOf) then FirstRaw(init, nameOf, rawOf, n)
      else if nameOf(last) == n then rawOf(last)
      else Undefined
  }

  /** The grouping the reduce computes, stated directly: one point per distinct name in order of
      first appearance, holding the sum of that name's metrics and its first record's raw value. */
  function Summary(data: seq<Row>, nameOf: Row -> string, metricOf: Row -> int, rawOf: Row -> Value): (r: seq<Point>)
    ensures |r| == |Dedup(Project(data, nameOf))|
    ensures forall j :: 0 <= j < |r| ==> r[j].name == Dedup(Project(data, nameOf))[j]
  {
    var names := Dedup(Project(data, nameOf));
    seq(|names|, j requires 0 <= j < |names| =>
      Point(names[j], Sum(Metrics(data, nameOf, metricOf, names[j])), FirstRaw(data, nameOf, rawOf, names[j])))
  }

  /** `acc.find(item => item.name === name)`, as the position of the first point with that name,
      or the length when there is none. */
  function FindName(acc: seq<Point>, name: string): (i: nat)
    ensures i <= |acc|
    ensures i < |acc| ==> acc[i].name == name
    ensures forall j :: 0 <= j < i ==> acc[j].name != name
  {
    if acc == [] then 0 else if acc[0].name == name then 0 else 1 + FindName(acc[1..], name)
  }

  /** One step of the reduce: an existing group absorbs the record's metric, a new name opens a
      group at the end. */
  function Absorb(acc: seq<Point>, name: string, metric: int, raw: Value): seq<Point>
  {
    var i := FindName(acc, name);
    if i < |acc| then acc[i := acc[i].(value := acc[i].value + metric)]
    else acc + [Point(name, metric, raw)]
  }

  lemma MetricsAppend(data: seq<Row>, x: Row, nameOf: Row -> string, metricOf: Row -> int, n: string)
    ensures Metrics(data + [x], nameOf, metricOf, n)
      == Metrics(data, nameOf, metricOf, n) + if nameOf(x) == n then [metricOf(x)] else []
  {
    assert (data + [x])[..|data|] == data;
  }

  lemma FirstRawAppend(data: seq<Row>, x: Row, nameOf: Row -> string, rawOf: Row -> Value, n: string)
    ensures FirstRaw(data + [x], nameOf, rawOf, n)
      == if n in Project(data, nameOf) then FirstRaw(data, nameOf, rawOf, n)
         else if nameOf(x) == n then rawOf(x) else Undefined
  {
    assert (data + [x])[..|data|] == data;
  }

  lemma SumSnoc(xs: seq<int>, v: int)
    ensures Sum(xs + [v]) == Sum(xs) + v
  {
    assert (xs + [v])[..|xs|] == xs;
  }

  lemma ProjectAppend<T>(data: seq<Row>, x: Row, f: Row -> T)
    ensures Project(data + [x], f) == Project(data, f) + [f(x)]
  {
  }

  lemma SummaryAt(data: seq<Row>, nameOf: Row -> string, metricOf: Row -> int, rawOf: Row -> Value, j: nat)
    requires j < |Dedup(Project(data, nameOf))|
    ensures var n := Dedup(Project(data, nameOf))[j];
      Summary(data, nameOf, metricOf, rawOf)[j]
        == Point(n, Sum(Metrics(data, nameOf, metricOf, n)), FirstRaw(data, nameOf, rawOf, n))
  {
  }

  /** A group of an existing name only changes through the new record's metric. */
  lemma SummaryStepOld(data: seq<Row>, x: Row, nameOf: Row -> string, metricOf: Row -> int, rawOf: Row -> Value, j: nat)
    requires j < |Dedup(Project(data, nameOf))|
    requires Dedup(Project(data + [x], nameOf)) == Dedup(Project(data, nameOf))
             || Dedup(Project(data + [x], nameOf)) == Dedup(Project(data, nameOf)) + [nameOf(x)]
    ensures var g := Summary(data, nameOf, metricOf, rawOf);
      Summary(data + [x], nameOf, metricOf, rawOf)[j]
        == if g[j].name == nameOf(x) then g[j].(value := g[j].value + metricOf(x)) else g[j]
  {
    var p := Project(data, nameOf);
    var names := Dedup(p);
    var nj := names[j];
    DedupSpec(p);
    assert nj in names;
    assert Dedup(Project(data + [x], nameOf))[j] == nj;
    SummaryAt(data, nameOf, metricOf, rawOf, j);
    SummaryAt(data + [x], nameOf, metricOf, rawOf, j);
    MetricsAppend(data, x, nameOf, metricOf, nj);
    FirstRawAppend(data, x, nameOf, rawOf, nj);
    var m := Metrics(data, nameOf, metricOf, nj);
    if nj == nameOf(x) {
      SumSnoc(m, metricOf(x));
    } else {
      assert m + [] == m;
    }
  }

  /** A record whose name already has a group adds its metric to that group. */
  lemma SummaryStepExisting(data: seq<Row>, x: Row, nameOf: Row -> string, metricOf: Row -> int, rawOf: Row -> Value)
    requires FindName(Summary(data, nameOf, metricOf, rawOf), nameOf(x)) < |Summary(data, nameOf, metricOf, rawOf)|
    ensures Summary(data + [x], nameOf, metricOf, rawOf)
      == Absorb(Summary(data, nameOf, metricOf, rawOf), nameOf(x), metricOf(x), rawOf(x))
  {
    var p := Project(data, nameOf);
    var n := nameOf(x);
    ProjectAppend(data, x, nameOf);
    var p' := Project(data + [x], nameOf);
    assert p'[..|p|] == p;
    DedupSpec(p);
    var names := Dedup(p);
    var g := Summary(data, nameOf, metricOf, rawOf);
    var g' := Summary(data + [x], nameOf, metricOf, rawOf);
    var a := Absorb(g, n, metricOf(x), rawOf(x));
    var i := FindName(g, n);
    assert n in names;
    assert Dedup(p') == names;
    forall j | 0 <= j < |g|
      ensures g'[j] == a[j]
    {
      SummaryStepOld(data, x, nameOf, metricOf, rawOf, j);
      if j != i {
        assert names[j] != names[i];
      }
    }
  }

  /** A record with a name not seen before opens a group at the end. */
  lemma SummaryStepNew(data: seq<Row>, x: Row, nameOf: Row -> string, metricOf: Row -> int, rawOf: Row -> Value)
    requires FindName(Summary(data, nameOf, metricOf, rawOf), nameOf(x)) == |Summary(data, nameOf, metricOf, rawOf)|
    ensures Summary(data + [x], nameOf, metricOf, rawOf)
      == Summary(data, nameOf, metricOf, rawOf) + [Point(nameOf(x), metricOf(x), rawOf(x))]
  {
    var p := Project(data, nameOf);
    var n := nameOf(x);
    ProjectAppend(data, x, nameOf);
    var p' := Project(data + [x], nameOf);
    assert p'[..|p|] == p;
    var names := Dedup(p);
    var g := Summary(data, nameOf, metricOf, rawOf);
    var g' := Summary(data + [x], nameOf, metricOf, rawOf);
    forall j | 0 <= j < |names|
      ensures names[j] != n
    {
      assert g[j].name == names[j];
    }
    assert n !in names;
    assert Dedup(p') == names + [n];
    forall j | 0 <= j < |g'|
      ensures g'[j] == (g + [Point(n, metricOf(x), rawOf(x))])[j]
    {
      if j < |g| {
        SummaryStepOld(data, x, nameOf, metricOf, rawOf, j);
      } else {
        DedupSpec(p);
        SummaryAt(data + [x], nameOf, metricOf, rawOf, j);
        MetricsAppend(data, x, nameOf, metricOf, n);
        FirstRawAppend(data, x, nameOf, rawOf, n);
        MetricsOfAbsentName(data, nameOf, metricOf, n);
        assert [metricOf(x)][..0] == [];
      }
    }
  }

  /** Adding one record to the data is one step of the reduce on the grouping. */
  lemma SummaryStep(data: seq<Row>, x: Row, nameOf: Row -> string, metricOf: Row -> int, rawOf: Row -> Value)
    ensures Summary(data + [x], nameOf, metricOf, rawOf)
      == Absorb(Summary(data, nameOf, metricOf, rawOf), nameOf(x), metricOf(x), rawOf(x))
  {
    if FindName(Summary(data, nameOf, metricOf, rawOf), nameOf(x)) < |Summary(data, nameOf, metricOf, rawOf)| {
      SummaryStepExisting(data, x, nameOf, metricOf, rawOf);
    } else {
      SummaryStepNew(data, x, nameOf, metricOf, rawOf);
    }
  }

  /** The grouping of one more record of `data`. */
  lemma SummaryPrefixStep(data: seq<Row>, k: nat, nameOf: Row -> string, metricOf: Row -> int, rawOf: Row -> Value)
    requires k < |data|
    ensures Summary(data[..k + 1], nameOf, metricOf, rawOf)
      == Absorb(Summary(data[..k], nameOf, metricOf, rawOf), nameOf(data[k]), metricOf(data[k]), rawOf(data[k]))
  {
    SummaryStep(data[..k], data[k], nameOf, metricOf, rawOf);
    assert data[..k + 1] == data[..k] + [data[k]];
  }

  /** A name no record carries has no metrics. */
  lemma {:induction false} MetricsOfAbsentName(data: seq<Row>, nameOf: Row -> string, metricOf: Row -> int, n: string)
    requires n !in Project(data, nameOf)
    ensures Metrics(data, nameOf, metricOf, n) == []
  {
    if data != [] {
      var init := data[..|data| - 1];
      assert Project(data, nameOf)[..|init|] == Project(init, nameOf);
      MetricsOfAbsentName(init, nameOf, metricOf, n);
      assert Project(data, nameOf)[|init|] == nameOf(data[|data| - 1]);
    }
  }

  /** The reduce callback: the group with the record's name, if any, absorbs its metric in
      place; otherwise a new group is pushed. */
  method ReduceStep(acc: seq<Point>, groupVal: string, metricVal: int, raw: Value) returns (next: seq<Point>)
    ensures next == Absorb(acc, groupVal, metricVal, raw)
  {
    var i := FindName(acc, groupVal);
    if i < |acc| {
      next := acc[i := acc[i].(value := acc[i].value + metricVal)];
    } else {
      next := acc + [Point(groupVal, metricVal, raw)];
    }
  }

  /** `data.reduce(...)` into `grouped`: one pass over the records, each absorbed into the
      accumulator; the result is the reference grouping. */
  method GroupRows(data: seq<Row>, nameOf: Row -> string, metricOf: Row -> int, rawOf: Row -> Value)
    returns (acc: seq<Point>)
    ensures acc == Summary(data, nameOf, metricOf, rawOf)
  {
    acc := [];
    var k := 0;
    while k < |data|
      invariant 0 <= k <= |data|
      invariant acc == Summary(data[..k], nameOf, metricOf, rawOf)
    {
      var curr := data[k];
      var groupVal := nameOf(curr);
      var metricVal := metricOf(curr);
      SummaryPrefixStep(data, k, nameOf, metricOf, rawOf);
      acc := ReduceStep(acc, groupVal, metricVal, rawOf(curr));
      k := k + 1;
    }
    assert data[..k] == data;
  }

  // ---------------------------------------------------------------- what the grouping means

  function SumValues(s: seq<Point>): int
  {
    if s == [] then 0 else SumValues(s[..|s| - 1]) + s[|s| - 1].value
  }

  lemma {:induction false} SumValuesAppend(s: seq<Point>, t: seq<Point>)
    ensures SumValues(s + t) == SumValues(s) + SumValues(t)
    decreases |t|
  {
    if t == [] {
      assert s + t == s;
    } else {
      assert s + t == (s + t[..|t| - 1]) + [t[|t| - 1]];
      SumValuesAppend(s, t[..|t| - 1]);
    }
  }

  lemma SumValuesUpdate(s: seq<Point>, i: nat, delta: int)
    requires i < |s|
    ensures SumValues(s[i := s[i].(value := s[i].value + delta)]) == SumValues(s) + delta
  {
    var s' := s[i := s[i].(value := s[i].value + delta)];
    assert s == s[..i] + [s[i]] + s[i + 1..];
    assert s' == s[..i] + [s'[i]] + s[i + 1..];
    SumValuesAppend(s[..i] + [s[i]], s[i + 1..]);
    SumValuesAppend(s[..i] + [s'[i]], s[i + 1..]);
    SumValuesAppend(s[..i], [s[i]]);
    SumValuesAppend(s[..i], [s'[i]]);
    assert SumValues([s[i]]) == s[i].value by { assert [s[i]][..0] == []; }
    assert SumValues([s'[i]]) == s'[i].value by { assert [s'[i]][..0] == []; }
  }

  /** No two groups share a name. */
  lemma SummaryNamesDistinct(data: seq<Row>, nameOf: Row -> string, metricOf: Row -> int, rawOf: Row -> Value)
    ensures var g := Summary(data, nameOf, metricOf, rawOf);
      forall i, j :: 0 <= i < j < |g| ==> g[i].name != g[j].name
  {
    DedupSpec(Project(data, nameOf));
  }

  /** Every group is named after some record. */
  lemma SummaryNamesFromRecords(data: seq<Row>, nameOf: Row -> string, metricOf: Row -> int, rawOf: Row -> Value)
    ensures var g := Summary(data, nameOf, metricOf, rawOf);
      forall j :: 0 <= j < |g| ==> exists i :: 0 <= i < |data| && nameOf(data[i]) == g[j].name
  {
    var p := Project(data, nameOf);
    var d := Dedup(p);
    DedupSpec(p);
    var g := Summary(data, nameOf, metricOf, rawOf);
    forall j | 0 <= j < |g|
      ensures exists i :: 0 <= i < |data| && nameOf(data[i]) == g[j].name
    {
      assert d[j] in d;
      var i :| 0 <= i < |p| && p[i] == d[j];
      assert nameOf(data[i]) == g[j].name;
    }
  }

  /** Every record's name has a group. */
  lemma SummaryNamesCoverRecords(data: seq<Row>, nameOf: Row -> string, metricOf: Row -> int, rawOf: Row -> Value)
    ensures var g := Summary(data, nameOf, metricOf, rawOf);
      forall i :: 0 <= i < |data| ==> exists j :: 0 <= j < |g| && g[j].name == nameOf(data[i])
  {
    var p := Project(data, nameOf);
    var d := Dedup(p);
    DedupSpec(p);
    var g := Summary(data, nameOf, metricOf, rawOf);
    forall i | 0 <= i < |data|
      ensures exists j :: 0 <= j < |g| && g[j].name == nameOf(data[i])
    {
      assert p[i] in p;
      var j :| 0 <= j < |d| && d[j] == p[i];
      assert g[j].name == nameOf(data[i]);
    }
  }

  /** The group totals add up to the sum of all the records' metrics: each record adds its
      metric to exactly one group. */
  lemma {:induction false} SummaryTotal(data: seq<Row>, nameOf: Row -> string, metricOf: Row -> int, rawOf: Row -> Value)
    ensures SumValues(Summary(data, nameOf, metricOf, rawOf)) == Sum(Measures(data, metricOf))
  {
    if data != [] {
      var init := data[..|data| - 1];
      var x := data[|data| - 1];
      SummaryTotal(init, nameOf, metricOf, rawOf);
      SummaryStep(init, x, nameOf, metricOf, rawOf);
      assert init + [x] == data;
      AbsorbTotal(Summary(init, nameOf, metricOf, rawOf), nameOf(x), metricOf(x), rawOf(x));
      SumSnoc(Measures(init, metricOf), metricOf(x));
    }
  }

  /** Absorbing a record adds its metric to the total. */
  lemma AbsorbTotal(acc: seq<Point>, name: string, metric: int, raw: Value)
    ensures SumValues(Absorb(acc, name, metric, raw)) == SumValues(acc) + metric
  {
    var i := FindName(acc, name);
    if i < |acc| {
      SumValuesUpdate(acc, i, metric);
    } else {
      SumValuesSnoc(acc, Point(name, metric, raw));
    }
  }

  lemma SumValuesSnoc(s: seq<Point>, p: Point)
    ensures SumValues(s + [p]) == SumValues(s) + p.value
  {
    assert (s + [p])[..|s|] == s;
  }


  /** The raw value a group keeps comes from the first record carrying its name. */
  lemma {:induction false} FirstRawIsFirst(data: seq<Row>, nameOf: Row -> string, rawOf: Row -> Value, n: string)
    requires n in Project(data, nameOf)
    ensures exists i :: (0 <= i < |data| && nameOf(data[i]) == n && FirstRaw(data, nameOf, rawOf, n) == rawOf(data[i])
      && forall h :: 0 <= h < i ==> nameOf(data[h]) != n)
  {
    var init := data[..|data| - 1];
    var p := Project(init, nameOf);
    assert Project(data, nameOf) == p + [nameOf(data[|data| - 1])];
    if n in p {
      FirstRawIsFirst(init, nameOf, rawOf, n);
      var i :| 0 <= i < |init| && nameOf(init[i]) == n && FirstRaw(init, nameOf, rawOf, n) == rawOf(init[i])
        && forall h :: 0 <= h < i ==> nameOf(init[h]) != n;
      assert data[i] == init[i];
      assert forall h :: 0 <= h < i ==> data[h] == init[h];
    } else {
      forall h | 0 <= h < |data| - 1
        ensures nameOf(data[h]) != n
      {
        assert p[h] == nameOf(data[h]);
      }
    }
  }

  /** Every group holds the sum of its records' metrics and the raw value of its first record. */
  lemma SummaryPoint(data: seq<Row>, nameOf: Row -> string, metricOf: Row -> int, rawOf: Row -> Value, p: Point)
    requires p in Summary(data, nameOf, metricOf, rawOf)
    ensures p.value == Sum(Metrics(data, nameOf, metricOf, p.name))
    ensures exists i :: (0 <= i < |data| && nameOf(data[i]) == p.name && p.rawKey == rawOf(data[i])
      && forall h :: 0 <= h < i ==> nameOf(data[h]) != p.name)
  {
    var g := Summary(data, nameOf, metricOf, rawOf);
    var names := Dedup(Project(data, nameOf));
    var j :| 0 <= j < |g| && g[j] == p;
    SummaryAt(data, nameOf, metricOf, rawOf, j);
    DedupSpec(Project(data, nameOf));
    assert names[j] in names;
    FirstRawIsFirst(data, nameOf, rawOf, p.name);
  }

  // ---------------------------------------------------------------- sorting

  /** Puts `x` after every point whose value is at least its own. */
  function InsertByValue(t: seq<Point>, x: Point): seq<Point>
  {
    if t == [] || t[|t| - 1].value >= x.value then t + [x]
    else InsertByValue(t[..|t| - 1], x) + [t[|t| - 1]]
  }

  /** `grouped.sort((a, b) => b.value - a.value)`: the engine's stable sort, largest first. */
  function SortByValue(s: seq<Point>): seq<Point>
  {
    if s == [] then [] else InsertByValue(SortByValue(s[..|s| - 1]), s[|s| - 1])
  }

  predicate Descending(s: seq<Point>)
  {
    forall i, j :: 0 <= i < j < |s| ==> s[i].value >= s[j].value
  }

  /** The points of value `v`, in order. */
  function Ties(s: seq<Point>, v: int): seq<Point>
  {
    if s == [] then [] else Ties(s[..|s| - 1], v) + if s[|s| - 1].value == v then [s[|s| - 1]] else []
  }

  lemma {:induction false} InsertByValueKeeps(t: seq<Point>, x: Point)
    ensures multiset(InsertByValue(t, x)) == multiset(t) + multiset{x}
  {
    if !(t == [] || t[|t| - 1].value >= x.value) {
      var init := t[..|t| - 1];
      var y := t[|t| - 1];
      assert t == init + [y];
      InsertByValueKeeps(init, x);
      assert multiset(t) == multiset(init) + multiset{y};
    }
  }

  lemma {:induction false} InsertByValueTies(t: seq<Point>, x: Point, v: int)
    ensures Ties(InsertByValue(t, x), v) == Ties(t, v) + if x.value == v then [x] else []
  {
    if t == [] || t[|t| - 1].value >= x.value {
      assert (t + [x])[..|t|] == t;
    } else {
      var init := t[..|t| - 1];
      var y := t[|t| - 1];
      InsertByValueTies(init, x, v);
      var u := InsertByValue(init, x);
      assert (u + [y])[..|u|] == u;
    }
  }

  lemma {:induction false} InsertByValueOrders(t: seq<Point>, x: Point)
    requires Descending(t)
    ensures Descending(InsertByValue(t, x))
  {
    if !(t == [] || t[|t| - 1].value >= x.value) {
      var init := t[..|t| - 1];
      var y := t[|t| - 1];
      InsertByValueOrders(init, x);
      InsertByValueKeeps(init, x);
      var u := InsertByValue(init, x);
      forall i | 0 <= i < |u|
        ensures u[i].value >= y.value
      {
        assert u[i] in multiset(u);
        if u[i] != x {
          assert u[i] in multiset(init);
          var k :| 0 <= k < |init| && init[k] == u[i];
          assert t[k] == init[k];
        }
      }
    }
  }

  lemma {:induction false} InsertByValueSum(t: seq<Point>, x: Point)
    ensures SumValues(InsertByValue(t, x)) == SumValues(t) + x.value
  {
    if t == [] || t[|t| - 1].value >= x.value {
      assert (t + [x])[..|t|] == t;
    } else {
      var init := t[..|t| - 1];
      var y := t[|t| - 1];
      InsertByValueSum(init, x);
      var u := InsertByValue(init, x);
      assert (u + [y])[..|u|] == u;
    }
  }

  /** The sort keeps every point. */
  lemma {:induction false} SortByValueKeeps(s: seq<Point>)
    ensures multiset(SortByValue(s)) == multiset(s)
  {
    if s != [] {
      var init := s[..|s| - 1];
      SortByValueKeeps(init);
      InsertByValueKeeps(SortByValue(init), s[|s| - 1]);
      assert s == init + [s[|s| - 1]];
    }
  }

  /** The sort orders by value, largest first. */
  lemma {:induction false} SortByValueOrders(s: seq<Point>)
    ensures Descending(SortByValue(s))
  {
    if s != [] {
      var init := s[..|s| - 1];
      SortByValueOrders(init);
      InsertByValueOrders(SortByValue(init), s[|s| - 1]);
    }
  }

  /** The sort is stable: points of equal value keep their original order. */
  lemma {:induction false} SortByValueStable(s: seq<Point>, v: int)
    ensures Ties(SortByValue(s), v) == Ties(s, v)
  {
    if s != [] {
      var init := s[..|s| - 1];
      SortByValueStable(init, v);
      InsertByValueTies(SortByValue(init), s[|s| - 1], v);
    }
  }

  lemma {:induction false} SortByValueSum(s: seq<Point>)
    ensures SumValues(SortByValue(s)) == SumValues(s)
  {
    if s != [] {
      var init := s[..|s| - 1];
      SortByValueSum(init);
      InsertByValueSum(SortByValue(init), s[|s| - 1]);
    }
  }

  // ---------------------------------------------------------------- truncation

  /** Top 15 plus `Others`: more than 15 groups keep the first 15 and, when the rest adds up to
      more than 0, an `Others` point holding the rest's total. */
  function Truncate(g: seq<Point>): (r: seq<Point>)
    ensures |r| <= TopGroups + 1
  {
    if |g| > TopGroups then
      var otherSum := SumValues(g[TopGroups..]);
      if otherSum > 0 then g[..TopGroups] + [Point("Others", otherSum, Undefined)] else g[..TopGroups]
    else g
  }

  /** The chart data for x key `xKey` and y key `yKey`. */
  function ChartSlices(data: seq<Row>, xKey: string, yKey: string, rawOf: Row -> Value): seq<Point>
  {
    if xKey == "" || yKey == "" || data == [] then []
    else Truncate(SortByValue(Summary(data, NameOf(xKey), MetricOf(yKey), rawOf)))
  }

  /** `processChartData` / `processData`: nothing without both keys or without records; else the
      grouping, sorted by total and cut to the top 15 plus `Others`. */
  method ChartData(data: seq<Row>, xKey: string, yKey: string, rawOf: Row -> Value) returns (r: seq<Point>)
    ensures r == ChartSlices(data, xKey, yKey, rawOf)
    ensures xKey == "" || yKey == "" || data == [] ==> r == []
    ensures |r| <= TopGroups + 1
  {
    if xKey == "" || yKey == "" || |data| == 0 {
      return [];
    }
    var grouped := GroupRows(data, NameOf(xKey), MetricOf(yKey), rawOf);
    grouped := SortByValue(grouped);
    if |grouped| > TopGroups {
      var top := grouped[..TopGroups];
      var otherSum := SumValues(grouped[TopGroups..]);
      if otherSum > 0 {
        top := top + [Point("Others", otherSum, Undefined)];
      }
      return top;
    }
    r := grouped;
  }

  /** At most 15 groups are sorted and none is cut. */
  lemma SortFew(g: seq<Point>)
    requires |g| <= TopGroups
    ensures multiset(Truncate(SortByValue(g))) == multiset(g)
    ensures Descending(Truncate(SortByValue(g)))
  {
    SortByValueKeeps(g);
    SortByValueOrders(g);
    var s := SortByValue(g);
    assert |s| == |g| by { assert |multiset(s)| == |multiset(g)|; }
  }

  /** With at most 15 groups the chart shows every group, largest total first. */
  lemma FewGroupsAllShown(data: seq<Row>, xKey: string, yKey: string, rawOf: Row -> Value)
    requires xKey != "" && yKey != "" && data != []
    requires |Summary(data, NameOf(xKey), MetricOf(yKey), rawOf)| <= TopGroups
    ensures multiset(ChartSlices(data, xKey, yKey, rawOf)) == multiset(Summary(data, NameOf(xKey), MetricOf(yKey), rawOf))
    ensures Descending(ChartSlices(data, xKey, yKey, rawOf))
  {
    SortFew(Summary(data, NameOf(xKey), MetricOf(yKey), rawOf));
  }

  /** In a descending sequence nothing past the first 15 is larger than any of them. */
  lemma CutKeepsLargest(s: seq<Point>)
    requires |s| > TopGroups && Descending(s)
    ensures forall p, i :: p in s[TopGroups..] && 0 <= i < TopGroups ==> p.value <= s[i].value
  {
    forall p, i | p in s[TopGroups..] && 0 <= i < TopGroups
      ensures p.value <= s[i].value
    {
      var k :| 0 <= k < |s[TopGroups..]| && s[TopGroups..][k] == p;
      assert s[TopGroups + k] == p;
    }
  }

  /** Cutting a descending sequence of more than 15 points: the first 15 stay in order, the rest
      is summed into `Others` exactly when that sum is positive. */
  lemma CutDescending(s: seq<Point>)
    requires |s| > TopGroups && Descending(s)
    ensures var r := Truncate(s);
      && TopGroups <= |r| <= TopGroups + 1
      && r[..TopGroups] == s[..TopGroups]
      && Descending(r[..TopGroups])
      && multiset(r[..TopGroups]) + multiset(s[TopGroups..]) == multiset(s)
      && (|r| == TopGroups + 1 <==> SumValues(s[TopGroups..]) > 0)
      && (|r| == TopGroups + 1 ==> r[TopGroups] == Point("Others", SumValues(s[TopGroups..]), Undefined))
  {
    assert s == s[..TopGroups] + s[TopGroups..];
  }

  /** Each of the first 15 points shown is one of the groups. */
  lemma ShownPointIsGroup(g: seq<Point>, i: nat)
    requires i < |Truncate(SortByValue(g))| && i < TopGroups
    ensures Truncate(SortByValue(g))[i] in g
  {
    var s := SortByValue(g);
    SortByValueKeeps(g);
    assert |s| == |g| by { assert |multiset(s)| == |multiset(g)|; }
    assert Truncate(s)[i] == s[i];
    assert s[i] in multiset(g);
  }

  /** `rest` is what the cut `r` of the groups `g` leaves out: with the 15 shown it makes up the
      groups, none of it is larger than a shown group, and `Others` follows exactly when it adds
      up to more than 0, holding its total. */
  predicate FoldsRest(r: seq<Point>, g: seq<Point>, rest: seq<Point>)
    requires |r| >= TopGroups
  {
    && multiset(r[..TopGroups]) + multiset(rest) == multiset(g)
    && (forall p, i :: p in rest && 0 <= i < TopGroups ==> p.value <= r[i].value)
    && (|r| == TopGroups + 1 <==> SumValues(rest) > 0)
    && (|r| == TopGroups + 1 ==> r[TopGroups] == Point("Others", SumValues(rest), Undefined))
  }

  /** Sorting more than 15 groups and cutting them: 15 groups, largest first, and the groups
      left out folded into `Others` as `FoldsRest` says. */
  lemma TruncateSorted(g: seq<Point>)
    requires |g| > TopGroups
    ensures TopGroups <= |Truncate(SortByValue(g))| <= TopGroups + 1
    ensures Descending(Truncate(SortByValue(g))[..TopGroups])
    ensures exists rest :: FoldsRest(Truncate(SortByValue(g)), g, rest)
  {
    var s := SortByValue(g);
    SortByValueKeeps(g);
    SortByValueOrders(g);
    assert |s| == |g| by { assert |multiset(s)| == |multiset(g)|; }
    CutDescending(s);
    CutKeepsLargest(s);
    var r := Truncate(s);
    var rest := s[TopGroups..];
    assert FoldsRest(r, g, rest);
  }

  /** With more than 15 groups the chart shows 15 of them, largest first, and no group left out
      has a larger total than any shown; `Others` follows exactly when the groups left out add
      up to more than 0, and holds their total. */
  lemma ManyGroupsTruncated(data: seq<Row>, xKey: string, yKey: string, rawOf: Row -> Value)
    requires xKey != "" && yKey != "" && data != []
    requires |Summary(data, NameOf(xKey), MetricOf(yKey), rawOf)| > TopGroups
    ensures TopGroups <= |ChartSlices(data, xKey, yKey, rawOf)| <= TopGroups + 1
    ensures Descending(ChartSlices(data, xKey, yKey, rawOf)[..TopGroups])
    ensures exists rest :: FoldsRest(ChartSlices(data, xKey, yKey, rawOf), Summary(data, NameOf(xKey), MetricOf(yKey), rawOf), rest)
  {
    TruncateSorted(Summary(data, NameOf(xKey), MetricOf(yKey), rawOf));
  }

  /** Sorting and cutting keeps the total of the groups, except that a non-positive remainder
      beyond the top 15 is dropped, which can only raise the total. */
  lemma TruncateSortedSum(g: seq<Point>)
    ensures |Truncate(SortByValue(g))| != TopGroups ==> SumValues(Truncate(SortByValue(g))) == SumValues(g)
    ensures SumValues(Truncate(SortByValue(g))) >= SumValues(g)
  {
    SortByValueSum(g);
    var s := SortByValue(g);
    if |s| > TopGroups {
      assert s == s[..TopGroups] + s[TopGroups..];
      SumValuesAppend(s[..TopGroups], s[TopGroups..]);
      var otherSum := SumValues(s[TopGroups..]);
      if otherSum > 0 {
        SumValuesAppend(s[..TopGroups], [Point("Others", otherSum, Undefined)]);
        assert SumValues([Point("Others", otherSum, Undefined)]) == otherSum by {
          assert [Point("Others", otherSum, Undefined)][..0] == [];
        }
      }
    }
  }

  /** The chart keeps the total of the y column, except that a non-positive remainder beyond the
      top 15 is dropped, which can only raise the total shown. */
  lemma ChartTotal(data: seq<Row>, xKey: string, yKey: string, rawOf: Row -> Value)
    requires xKey != "" && yKey != "" && data != []
    ensures |ChartSlices(data, xKey, yKey, rawOf)| != TopGroups ==>
      SumValues(ChartSlices(data, xKey, yKey, rawOf)) == Sum(Measures(data, MetricOf(yKey)))
    ensures SumValues(ChartSlices(data, xKey, yKey, rawOf)) >= Sum(Measures(data, MetricOf(yKey)))
  {
    SummaryTotal(data, NameOf(xKey), MetricOf(yKey), rawOf);
    TruncateSortedSum(Summary(data, NameOf(xKey), MetricOf(yKey), rawOf));
  }

  // ---------------------------------------------------------------- choosing columns

  /** Columns charted on the y axis: the number columns. */
  predicate IsMeasure(t: ColType) { t == NumberType }

  /** Columns charted on the x axis: the string and date columns. */
  predicate IsCategory(t: ColType) { t == StringType || t == DateType }

  /** `columns.filter(c => p(c.type))`. */
  function ColumnsOf(cols: seq<Column>, p: ColType -> bool): seq<Column>
  {
    if cols == [] then [] else (if p(cols[0].colType) then [cols[0]] else []) + ColumnsOf(cols[1..], p)
  }

  /** The filter keeps exactly the columns whose type passes, and no more columns than it had. */
  lemma {:induction false} ColumnsOfSpec(cols: seq<Column>, p: ColType -> bool)
    ensures |ColumnsOf(cols, p)| <= |cols|
    ensures forall c :: c in ColumnsOf(cols, p) <==> c in cols && p(c.colType)
  {
    if cols != [] {
      ColumnsOfSpec(cols[1..], p);
      assert cols == [cols[0]] + cols[1..];
    }
  }

  /** `columns.find(c => p(c.type))`. */
  function FindColumn(cols: seq<Column>, p: ColType -> bool): (r: Option<Column>)
    ensures r.Some? ==> r.value in cols && p(r.value.colType)
    ensures r.None? <==> forall c :: c in cols ==> !p(c.colType)
  {
    if cols == [] then None
    else if p(cols[0].colType) then Some(cols[0])
    else
      assert forall c :: c in cols ==> c == cols[0] || c in cols[1..];
      FindColumn(cols[1..], p)
  }

  /** The first column `find` returns is the first one `filter` keeps, and only a filter that
      keeps nothing makes `find` come back empty. */
  lemma {:induction false} FindIsFirstOfFilter(cols: seq<Column>, p: ColType -> bool)
    ensures FindColumn(cols, p) == if ColumnsOf(cols, p) == [] then None else Some(ColumnsOf(cols, p)[0])
  {
    if cols != [] && !p(cols[0].colType) {
      FindIsFirstOfFilter(cols[1..], p);
    }
  }

  /** `filter` keeps the columns in their order: filtering two runs of columns one after the
      other gives the two filtered runs one after the other. */
  lemma {:induction false} ColumnsOfAppend(a: seq<Column>, b: seq<Column>, p: ColType -> bool)
    ensures ColumnsOf(a + b, p) == ColumnsOf(a, p) + ColumnsOf(b, p)
  {
    if a != [] {
      var x, t := a[0], a[1..];
      ColumnsOfAppend(t, b, p);
      assert a == [x] + t;
      assert a + b == [x] + (t + b);
      assert ColumnsOf(a, p) == (if p(x.colType) then [x] else []) + ColumnsOf(t, p);
      assert ColumnsOf(a + b, p) == (if p(x.colType) then [x] else []) + ColumnsOf(t + b, p);
    } else {
      assert a + b == b;
    }
  }
}
