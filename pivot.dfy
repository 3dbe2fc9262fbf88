/** The pivot table: distinct sorted row and column labels, one bucket of values per
    (row label, column label) pair, one aggregate per cell, the CSV export and the
    configuration state of the pivot screen. The report editor's chart renderer builds the
    same matrix without the guard on empty keys. */
module Pivot {
  import opened Common

  datatype Aggregation = Total | Count | Average | Minimum | Maximum

  datatype PivotConfig = PivotConfig(rowKey: string, colKey: string, valueKey: string, aggregation: Aggregation)

  // ---------------------------------------------------------------- label order

  /** The order `sort()` without a comparator puts strings in: character by character, a
      proper prefix first. */
  predicate Below(a: string, b: string)
  {
    if a == [] then b != []
    else b != [] && (a[0] < b[0] || (a[0] == b[0] && Below(a[1..], b[1..])))
  }

  lemma {:induction false} BelowIrreflexive(a: string)
    ensures !Below(a, a)
  {
    if a != [] {
      BelowIrreflexive(a[1..]);
    }
  }

  lemma {:induction false} BelowTransitive(a: string, b: string, c: string)
    requires Below(a, b) && Below(b, c)
    ensures Below(a, c)
  {
    if a != [] && a[0] == b[0] && b[0] == c[0] {
      BelowTransitive(a[1..], b[1..], c[1..]);
    }
  }

  /** Two different strings are ordered one way or the other. */
  lemma {:induction false} BelowTotal(a: string, b: string)
    requires a != b
    ensures Below(a, b) || Below(b, a)
  {
    if a != [] && b != [] && a[0] == b[0] {
      assert a == [a[0]] + a[1..] && b == [b[0]] + b[1..];
      BelowTotal(a[1..], b[1..]);
    }
  }

  /** Pairwise increasing, hence free of duplicates. */
  predicate Increasing(s: seq<string>)
  {
    forall i, j :: 0 <= i < j < |s| ==> Below(s[i], s[j])
  }

  lemma IncreasingIsDistinct(s: seq<string>)
    requires Increasing(s)
    ensures Distinct(s)
  {
    forall i, j | 0 <= i < j < |s|
      ensures s[i] != s[j]
    {
      BelowIrreflexive(s[i]);
    }
  }

  /** Puts `x` into place in an increasing sequence. */
  function Insert(s: seq<string>, x: string): seq<string>
  {
    if s == [] then [x]
    else if x == s[0] || Below(x, s[0]) then [x] + s
    else [s[0]] + Insert(s[1..], x)
  }

  lemma {:induction false} InsertSpec(s: seq<string>, x: string)
    requires Increasing(s) && x !in s
    ensures |Insert(s, x)| == |s| + 1
    ensures forall y :: y in Insert(s, x) <==> y in s || y == x
    ensures Increasing(Insert(s, x))
  {
    if s == [] {
    } else if x == s[0] || Below(x, s[0]) {
      forall j | 0 <= j < |s|
        ensures Below(x, s[j])
      {
        if j > 0 {
          BelowTransitive(x, s[0], s[j]);
        }
      }
    } else {
      BelowTotal(x, s[0]);
      assert s == [s[0]] + s[1..];
      InsertSpec(s[1..], x);
      var t := Insert(s[1..], x);
      forall j | 0 <= j < |t|
        ensures Below(s[0], t[j])
      {
        assert t[j] in t;
      }
    }
  }

  /** Sorting by insertion, one element after the other. */
  function SortStrings(xs: seq<string>): seq<string>
  {
    if xs == [] then [] else Insert(SortStrings(xs[..|xs| - 1]), xs[|xs| - 1])
  }

  lemma {:induction false} SortStringsSpec(xs: seq<string>)
    requires Distinct(xs)
    ensures Increasing(SortStrings(xs))
    ensures forall y :: y in SortStrings(xs) <==> y in xs
  {
    if xs != [] {
      var init := xs[..|xs| - 1];
      SortStringsSpec(init);
      assert xs[|xs| - 1] !in init;
      InsertSpec(SortStrings(init), xs[|xs| - 1]);
      assert xs == init + [xs[|xs| - 1]];
    }
  }

  // ---------------------------------------------------------------- labels and groups

  /** `String(d[key])`: the label a record shows under `key`. */
  function TextOf(key: string): Row -> string
  {
    d => Stringify(Get(d, key))
  }

  /** `Array.from(new Set(data.map(f))).sort()`. */
  function Labels(data: seq<Row>, f: Row -> string): seq<string>
  {
    SortStrings(Dedup(Project(data, f)))
  }

  /** The labels are increasing (so sorted and free of duplicates) and are exactly the labels
      some record shows. */
  lemma LabelsSpec(data: seq<Row>, f: Row -> string)
    ensures Increasing(Labels(data, f))
    ensures forall y :: y in Labels(data, f) <==> exists i :: 0 <= i < |data| && f(data[i]) == y
  {
    var p := Project(data, f);
    DedupSpec(p);
    SortStringsSpec(Dedup(p));
    forall y | y in Labels(data, f)
      ensures exists i :: 0 <= i < |data| && f(data[i]) == y
    {
      var i :| 0 <= i < |p| && p[i] == y;
      assert f(data[i]) == y;
    }
    forall i | 0 <= i < |data|
      ensures f(data[i]) in Labels(data, f)
    {
      assert p[i] == f(data[i]);
    }
  }

  /** The values of the records that fall in cell (`r`, `c`), in record order. */
  function Group(data: seq<Row>, rowOf: Row -> string, colOf: Row -> string, valueOf: Row -> int,
                 r: string, c: string): seq<int>
  {
    if data == [] then []
    else
      var last := data[|data| - 1];
      Group(data[..|data| - 1], rowOf, colOf, valueOf, r, c)
        + if rowOf(last) == r && colOf(last) == c then [valueOf(last)] else []
  }

  lemma GroupAppend(data: seq<Row>, x: Row, rowOf: Row -> string, colOf: Row -> string,
                    valueOf: Row -> int, r: string, c: string)
    ensures Group(data + [x], rowOf, colOf, valueOf, r, c)
      == Group(data, rowOf, colOf, valueOf, r, c) + if rowOf(x) == r && colOf(x) == c then [valueOf(x)] else []
  {
    assert (data + [x])[..|data|] == data;
  }

  function MinOf(vals: seq<int>): int
    requires vals != []
  {
    if |vals| == 1 then vals[0]
    else var m := MinOf(vals[..|vals| - 1]); if vals[|vals| - 1] < m then vals[|vals| - 1] else m
  }

  function MaxOf(vals: seq<int>): int
    requires vals != []
  {
    if |vals| == 1 then vals[0]
    else var m := MaxOf(vals[..|vals| - 1]); if vals[|vals| - 1] > m then vals[|vals| - 1] else m
  }

  /** `Math.min(...vals)` and `Math.max(...vals)`: a lower and an upper bound that are both
      attained. */
  lemma {:induction false} MinMaxSpec(vals: seq<int>)
    requires vals != []
    ensures forall i :: 0 <= i < |vals| ==> MinOf(vals) <= vals[i] <= MaxOf(vals)
    ensures MinOf(vals) in vals && MaxOf(vals) in vals
  {
    if |vals| > 1 {
      MinMaxSpec(vals[..|vals| - 1]);
      assert vals == vals[..|vals| - 1] + [vals[|vals| - 1]];
    }
  }

  /** One matrix cell: 0 for an empty bucket, otherwise the chosen aggregate. */
  function Aggregate(agg: Aggregation, vals: seq<int>): real
  {
    if vals == [] then 0.0
    else match agg
      case Total => Sum(vals) as real
      case Count => |vals| as real
      case Average => Sum(vals) as real / |vals| as real
      case Minimum => MinOf(vals) as real
      case Maximum => MaxOf(vals) as real
  }

  /** A non-empty bucket's minimum never exceeds its maximum, and both are values of the bucket. */
  lemma MinimumNotAboveMaximum(vals: seq<int>)
    requires vals != []
    ensures Aggregate(Minimum, vals) <= Aggregate(Maximum, vals)
    ensures exists i :: 0 <= i < |vals| && Aggregate(Minimum, vals) == vals[i] as real
    ensures exists i :: 0 <= i < |vals| && Aggregate(Maximum, vals) == vals[i] as real
  {
    MinMaxSpec(vals);
    var i :| 0 <= i < |vals| && vals[i] == MinOf(vals);
    var j :| 0 <= j < |vals| && vals[j] == MaxOf(vals);
  }

  // ---------------------------------------------------------------- building the matrix

  /** `values[r]?.[c] || []`. */
  function Bucket(values: map<string, map<string, seq<int>>>, r: string, c: string): seq<int>
  {
    if r in values && c in values[r] then values[r][c] else []
  }

  /** `values[r][c].push(val)`, creating the row and the bucket when missing: that bucket grows
      by `val` and every other bucket stays as it was. */
  method PushValue(values: map<string, map<string, seq<int>>>, r: string, c: string, val: int)
    returns (next: map<string, map<string, seq<int>>>)
    ensures forall r', c' :: Bucket(next, r', c') == Bucket(values, r', c') + if r' == r && c' == c then [val] else []
  {
    next := values;
    if r !in next {
      next := next[r := map[]];
    }
    if c !in next[r] {
      next := next[r := next[r][c := []]];
    }
    next := next[r := next[r][c := next[r][c] + [val]]];
  }

  /** The first pass: every record pushes its value onto the bucket of its cell. */
  method CollectValues(data: seq<Row>, rowOf: Row -> string, colOf: Row -> string, valueOf: Row -> int)
    returns (values: map<string, map<string, seq<int>>>)
    ensures forall r, c :: Bucket(values, r, c) == Group(data, rowOf, colOf, valueOf, r, c)
  {
    values := map[];
    var k := 0;
    while k < |data|
      invariant 0 <= k <= |data|
      invariant forall r, c :: Bucket(values, r, c) == Group(data[..k], rowOf, colOf, valueOf, r, c)
    {
      var item := data[k];
      var r := rowOf(item);
      var c := colOf(item);
      var val := valueOf(item);
      values := PushValue(values, r, c, val);
      assert data[..k + 1] == data[..k] + [item];
      forall r', c'
        ensures Bucket(values, r', c') == Group(data[..k + 1], rowOf, colOf, valueOf, r', c')
      {
        GroupAppend(data[..k], item, rowOf, colOf, valueOf, r', c');
      }
      k := k + 1;
    }
    assert data[..|data|] == data;
  }

  /** One row of the matrix: `mat[r][c]` for every column label `c`. */
  method TabulateRow(values: map<string, map<string, seq<int>>>, r: string, colLabels: seq<string>, agg: Aggregation)
    returns (cells: map<string, real>)
    ensures cells.Keys == set c | c in colLabels
    ensures forall c :: c in cells ==> cells[c] == Aggregate(agg, Bucket(values, r, c))
  {
    cells := map[];
    var j := 0;
    while j < |colLabels|
      invariant 0 <= j <= |colLabels|
      invariant cells.Keys == set c | c in colLabels[..j]
      invariant forall c :: c in cells ==> cells[c] == Aggregate(agg, Bucket(values, r, c))
    {
      var c := colLabels[j];
      cells := cells[c := Aggregate(agg, Bucket(values, r, c))];
      assert colLabels[..j + 1] == colLabels[..j] + [c];
      j := j + 1;
    }
    assert colLabels[..j] == colLabels;
  }

  /** The second pass: one row of the matrix per row label, one cell per column label. */
  method Tabulate(values: map<string, map<string, seq<int>>>, rowLabels: seq<string>, colLabels: seq<string>,
                  agg: Aggregation)
    returns (mat: map<string, map<string, real>>)
    ensures mat.Keys == set r | r in rowLabels
    ensures forall r :: r in mat ==> mat[r].Keys == set c | c in colLabels
    ensures forall r, c :: r in rowLabels && c in colLabels ==> mat[r][c] == Aggregate(agg, Bucket(values, r, c))
  {
    mat := map[];
    var i := 0;
    while i < |rowLabels|
      invariant 0 <= i <= |rowLabels|
      invariant mat.Keys == set r | r in rowLabels[..i]
      invariant forall r :: r in mat ==> mat[r].Keys == set c | c in colLabels
      invariant forall r, c :: r in mat && c in mat[r] ==> mat[r][c] == Aggregate(agg, Bucket(values, r, c))
    {
      var r := rowLabels[i];
      var cells := TabulateRow(values, r, colLabels, agg);
      mat := mat[r := cells];
      assert rowLabels[..i + 1] == rowLabels[..i] + [r];
      i := i + 1;
    }
    assert rowLabels[..i] == rowLabels;
  }

  /** The matrix with the sorted labels, as the report editor's chart renderer computes it:
      every (row label, column label) pair has a cell holding the aggregate of its bucket, and
      there are no other cells. */
  method BuildMatrix(data: seq<Row>, rowKey: string, colKey: string, valueKey: string, agg: Aggregation)
    returns (matrix: map<string, map<string, real>>, rowLabels: seq<string>, colLabels: seq<string>)
    ensures rowLabels == Labels(data, TextOf(rowKey)) && colLabels == Labels(data, TextOf(colKey))
    ensures matrix.Keys == set r | r in rowLabels
    ensures forall r :: r in matrix ==> matrix[r].Keys == set c | c in colLabels
    ensures forall r, c :: r in rowLabels && c in colLabels ==>
      matrix[r][c] == Aggregate(agg, Group(data, TextOf(rowKey), TextOf(colKey), NumberOf(valueKey), r, c))
  {
    rowLabels := Labels(data, TextOf(rowKey));
    colLabels := Labels(data, TextOf(colKey));
    var values := CollectValues(data, TextOf(rowKey), TextOf(colKey), NumberOf(valueKey));
    matrix := Tabulate(values, rowLabels, colLabels, agg);
  }

  /** The pivot screen's matrix: empty unless all three keys are chosen, otherwise the full
      matrix. */
  method PivotMatrix(data: seq<Row>, rowKey: string, colKey: string, valueKey: string, agg: Aggregation)
    returns (matrix: map<string, map<string, real>>, rowLabels: seq<string>, colLabels: seq<string>)
    ensures rowKey == "" || colKey == "" || valueKey == "" ==> matrix == map[] && rowLabels == [] && colLabels == []
    ensures rowKey != "" && colKey != "" && valueKey != "" ==>
      && rowLabels == Labels(data, TextOf(rowKey)) && colLabels == Labels(data, TextOf(colKey))
      && matrix.Keys == (set r | r in rowLabels)
      && (forall r :: r in matrix ==> matrix[r].Keys == set c | c in colLabels)
      && (forall r, c :: r in rowLabels && c in colLabels ==>
            matrix[r][c] == Aggregate(agg, Group(data, TextOf(rowKey), TextOf(colKey), NumberOf(valueKey), r, c)))
  {
    if rowKey == "" || colKey == "" || valueKey == "" {
      return map[], [], [];
    }
    matrix, rowLabels, colLabels := BuildMatrix(data, rowKey, colKey, valueKey, agg);
  }

  // ---------------------------------------------------------------- totals

  /** The sum of `cell(r, c)` over every pair of labels. */
  ghost function Table(rls: seq<string>, cls: seq<string>, cell: (string, string) -> real): real
  {
    if rls == [] then 0.0 else Table(rls[..|rls| - 1], cls, cell) + Line(rls[|rls| - 1], cls, cell)
  }

  ghost function Line(r: string, cls: seq<string>, cell: (string, string) -> real): real
  {
    if cls == [] then 0.0 else Line(r, cls[..|cls| - 1], cell) + cell(r, cls[|cls| - 1])
  }

  lemma {:induction false} LineShift(r: string, cls: seq<string>, a: (string, string) -> real,
                                     b: (string, string) -> real, r0: string, c0: string, w: real)
    requires Distinct(cls)
    requires forall c :: a(r, c) == b(r, c) + if r == r0 && c == c0 then w else 0.0
    ensures Line(r, cls, a) == Line(r, cls, b) + if r == r0 && c0 in cls then w else 0.0
  {
    if cls != [] {
      var init := cls[..|cls| - 1];
      LineShift(r, init, a, b, r0, c0, w);
      assert cls == init + [cls[|cls| - 1]];
    }
  }

  /** Adding `w` to one cell adds `w` to the table exactly when that cell is in it. */
  lemma {:induction false} TableShift(rls: seq<string>, cls: seq<string>, a: (string, string) -> real,
                                      b: (string, string) -> real, r0: string, c0: string, w: real)
    requires Distinct(rls) && Distinct(cls)
    requires forall r, c :: a(r, c) == b(r, c) + if r == r0 && c == c0 then w else 0.0
    ensures Table(rls, cls, a) == Table(rls, cls, b) + if r0 in rls && c0 in cls then w else 0.0
  {
    if rls != [] {
      var init := rls[..|rls| - 1];
      TableShift(init, cls, a, b, r0, c0, w);
      LineShift(rls[|rls| - 1], cls, a, b, r0, c0, w);
      assert rls == init + [rls[|rls| - 1]];
    }
  }

  ghost function SumCell(data: seq<Row>, rowOf: Row -> string, colOf: Row -> string, valueOf: Row -> int):
    (string, string) -> real
  {
    (r, c) => Sum(Group(data, rowOf, colOf, valueOf, r, c)) as real
  }

  /** When the labels cover every record, the buckets partition the records: the bucket sums
      add up to the sum over all records. */
  lemma {:induction false} BucketsPartition(data: seq<Row>, rowOf: Row -> string, colOf: Row -> string,
                                            valueOf: Row -> int, rls: seq<string>, cls: seq<string>)
    requires Distinct(rls) && Distinct(cls)
    requires forall i :: 0 <= i < |data| ==> rowOf(data[i]) in rls && colOf(data[i]) in cls
    ensures Table(rls, cls, SumCell(data, rowOf, colOf, valueOf)) == Sum(Measures(data, valueOf)) as real
  {
    if data == [] {
      TableShift(rls, cls, SumCell(data, rowOf, colOf, valueOf), (r, c) => 0.0, "", "", 0.0);
      ZeroTable(rls, cls);
    } else {
      var init := data[..|data| - 1];
      var x := data[|data| - 1];
      assert data == init + [x];
      BucketsPartition(init, rowOf, colOf, valueOf, rls, cls);
      forall r, c
        ensures SumCell(data, rowOf, colOf, valueOf)(r, c)
          == SumCell(init, rowOf, colOf, valueOf)(r, c) + if r == rowOf(x) && c == colOf(x) then valueOf(x) as real else 0.0
      {
        GroupAppend(init, x, rowOf, colOf, valueOf, r, c);
        SumAppend(Group(init, rowOf, colOf, valueOf, r, c),
                  if rowOf(x) == r && colOf(x) == c then [valueOf(x)] else []);
      }
      TableShift(rls, cls, SumCell(data, rowOf, colOf, valueOf), SumCell(init, rowOf, colOf, valueOf),
                 rowOf(x), colOf(x), valueOf(x) as real);
    }
  }

  lemma {:induction false} ZeroTable(rls: seq<string>, cls: seq<string>)
    ensures Table(rls, cls, (r, c) => 0.0) == 0.0
  {
    if rls != [] {
      ZeroTable(rls[..|rls| - 1], cls);
      ZeroLine(rls[|rls| - 1], cls);
    }
  }

  lemma {:induction false} ZeroLine(r: string, cls: seq<string>)
    ensures Line(r, cls, (r, c) => 0.0) == 0.0
  {
    if cls != [] {
      ZeroLine(r, cls[..|cls| - 1]);
    }
  }

  lemma LabelsCover(data: seq<Row>, f: Row -> string, i: nat)
    requires i < |data|
    ensures f(data[i]) in Labels(data, f)
  {
    LabelsSpec(data, f);
  }

  /** Labels that cover every record at most once each: the `sum` cells over them add up to
      the total of the value column. */
  lemma TotalCellsAddUpOver(data: seq<Row>, rowOf: Row -> string, colOf: Row -> string, valueOf: Row -> int,
                            rls: seq<string>, cls: seq<string>)
    requires Distinct(rls) && Distinct(cls)
    requires forall i :: 0 <= i < |data| ==> rowOf(data[i]) in rls && colOf(data[i]) in cls
    ensures Table(rls, cls, (r, c) => Aggregate(Total, Group(data, rowOf, colOf, valueOf, r, c)))
         == Sum(Measures(data, valueOf)) as real
  {
    BucketsPartition(data, rowOf, colOf, valueOf, rls, cls);
    TableShift(rls, cls, (r, c) => Aggregate(Total, Group(data, rowOf, colOf, valueOf, r, c)),
               SumCell(data, rowOf, colOf, valueOf), "", "", 0.0);
  }

  /** The sorted labels of the records are distinct and cover every record. */
  lemma LabelsPartition(data: seq<Row>, rowOf: Row -> string, colOf: Row -> string)
    ensures Distinct(Labels(data, rowOf)) && Distinct(Labels(data, colOf))
    ensures forall i :: 0 <= i < |data| ==> rowOf(data[i]) in Labels(data, rowOf) && colOf(data[i]) in Labels(data, colOf)
  {
    LabelsSpec(data, rowOf);
    LabelsSpec(data, colOf);
    IncreasingIsDistinct(Labels(data, rowOf));
    IncreasingIsDistinct(Labels(data, colOf));
    forall i | 0 <= i < |data|
      ensures rowOf(data[i]) in Labels(data, rowOf) && colOf(data[i]) in Labels(data, colOf)
    {
      LabelsCover(data, rowOf, i);
      LabelsCover(data, colOf, i);
    }
  }

  /** With `sum`, the cells of the matrix add up to the total of the value column. */
  lemma TotalCellsAddUp(data: seq<Row>, rowOf: Row -> string, colOf: Row -> string, valueOf: Row -> int)
    ensures Table(Labels(data, rowOf), Labels(data, colOf),
                  (r, c) => Aggregate(Total, Group(data, rowOf, colOf, valueOf, r, c)))
         == Sum(Measures(data, valueOf)) as real
  {
    LabelsPartition(data, rowOf, colOf);
    TotalCellsAddUpOver(data, rowOf, colOf, valueOf, Labels(data, rowOf), Labels(data, colOf));
  }

  lemma {:induction false} GroupSize(data: seq<Row>, rowOf: Row -> string, colOf: Row -> string,
                                     valueOf: Row -> int, r: string, c: string)
    ensures |Group(data, rowOf, colOf, valueOf, r, c)| == Sum(Group(data, rowOf, colOf, d => 1, r, c))
  {
    if data != [] {
      var init := data[..|data| - 1];
      var x := data[|data| - 1];
      GroupSize(init, rowOf, colOf, valueOf, r, c);
      SumAppend(Group(init, rowOf, colOf, d => 1, r, c), if rowOf(x) == r && colOf(x) == c then [1] else []);
    }
  }

  lemma {:induction false} OnesSum(data: seq<Row>)
    ensures Sum(Measures(data, d => 1)) == |data|
  {
    if data != [] {
      OnesSum(data[..|data| - 1]);
    }
  }

  /** With `count`, the cells of the matrix add up to the number of records. */
  lemma CountCellsAddUp(data: seq<Row>, rowOf: Row -> string, colOf: Row -> string, valueOf: Row -> int)
    ensures Table(Labels(data, rowOf), Labels(data, colOf),
                  (r, c) => Aggregate(Count, Group(data, rowOf, colOf, valueOf, r, c)))
         == |data| as real
  {
    var rls, cls := Labels(data, rowOf), Labels(data, colOf);
    LabelsPartition(data, rowOf, colOf);
    TotalCellsAddUpOver(data, rowOf, colOf, d => 1, rls, cls);
    forall r, c
      ensures Aggregate(Count, Group(data, rowOf, colOf, valueOf, r, c))
           == Aggregate(Total, Group(data, rowOf, colOf, d => 1, r, c))
    {
      GroupSize(data, rowOf, colOf, valueOf, r, c);
      GroupSizeMatches(data, rowOf, colOf, valueOf, r, c);
    }
    TableShift(rls, cls, (r, c) => Aggregate(Count, Group(data, rowOf, colOf, valueOf, r, c)),
               (r, c) => Aggregate(Total, Group(data, rowOf, colOf, d => 1, r, c)), "", "", 0.0);
    OnesSum(data);
  }

  /** Whatever values are collected, the same records fall into each bucket. */
  lemma {:induction false} GroupSizeMatches(data: seq<Row>, rowOf: Row -> string, colOf: Row -> string,
                                            valueOf: Row -> int, r: string, c: string)
    ensures |Group(data, rowOf, colOf, valueOf, r, c)| == |Group(data, rowOf, colOf, d => 1, r, c)|
  {
    if data != [] {
      GroupSizeMatches(data[..|data| - 1], rowOf, colOf, valueOf, r, c);
    }
  }

  // ---------------------------------------------------------------- CSV export

  datatype CsvFile = CsvFile(fileName: string, text: string)

  /** One CSV line: the leading field, a comma, the other fields joined by commas. */
  function CsvLine(head: string, cells: seq<string>): string
  {
    head + "," + Join(cells, ",") + "\n"
  }

  /** `matrix[r]?.[c] || 0`. */
  function CellOrZero(matrix: map<string, map<string, real>>, r: string, c: string): real
  {
    if r in matrix && c in matrix[r] then matrix[r][c] else 0.0
  }

  /** The cells of row label `r`'s line: its value under each column label, rendered by `show`
      (`String` on a number), 0 where the matrix has none. */
  function CsvFields(matrix: map<string, map<string, real>>, r: string, colLabels: seq<string>, show: real -> string)
    : (cells: seq<string>)
    ensures |cells| == |colLabels|
    ensures forall j :: 0 <= j < |colLabels| ==> cells[j] == show(CellOrZero(matrix, r, colLabels[j]))
  {
    seq(|colLabels|, j requires 0 <= j < |colLabels| => show(CellOrZero(matrix, r, colLabels[j])))
  }

  /** The fields of the export: the corner and the column labels, then one record per row
      label with its cells. */
  function CsvRecords(rowKey: string, colKey: string, rowLabels: seq<string>, colLabels: seq<string>,
                      matrix: map<string, map<string, real>>, show: real -> string): (recs: seq<(string, seq<string>)>)
    ensures |recs| == |rowLabels| + 1
    ensures recs[0] == (rowKey + " \\ " + colKey, colLabels)
    ensures forall i :: 0 <= i < |rowLabels| ==> recs[i + 1] == (rowLabels[i], CsvFields(matrix, rowLabels[i], colLabels, show))
  {
    [(rowKey + " \\ " + colKey, colLabels)]
      + seq(|rowLabels|, i requires 0 <= i < |rowLabels| => (rowLabels[i], CsvFields(matrix, rowLabels[i], colLabels, show)))
  }

  function Lines(recs: seq<(string, seq<string>)>): string
  {
    if recs == [] then "" else Lines(recs[..|recs| - 1]) + CsvLine(recs[|recs| - 1].0, recs[|recs| - 1].1)
  }

  lemma LinesSnoc(recs: seq<(string, seq<string>)>, k: nat)
    requires k < |recs|
    ensures Lines(recs[..k + 1]) == Lines(recs[..k]) + CsvLine(recs[k].0, recs[k].1)
  {
    assert recs[..k + 1][..k] == recs[..k];
  }

  /** `handleExport`: nothing without a row and a column key; otherwise the file
      `Pivot_<row>_vs_<col>.csv` holding a header line and one line per row label. */
  method ExportCsv(rowKey: string, colKey: string, rowLabels: seq<string>, colLabels: seq<string>,
                   matrix: map<string, map<string, real>>, show: real -> string)
    returns (file: Option<CsvFile>)
    ensures file.None? <==> rowKey == "" || colKey == ""
    ensures file.Some? ==>
      && file.value.fileName == "Pivot_" + rowKey + "_vs_" + colKey + ".csv"
      && file.value.text == Lines(CsvRecords(rowKey, colKey, rowLabels, colLabels, matrix, show))
  {
    if rowKey == "" || colKey == "" {
      return None;
    }
    ghost var recs := CsvRecords(rowKey, colKey, rowLabels, colLabels, matrix, show);
    var csv := CsvLine(rowKey + " \\ " + colKey, colLabels);
    assert recs[..1] == [recs[0]];
    var i := 0;
    while i < |rowLabels|
      invariant 0 <= i <= |rowLabels|
      invariant csv == Lines(recs[..i + 1])
    {
      var r := rowLabels[i];
      var rowData := CsvFields(matrix, r, colLabels, show);
      LinesSnoc(recs, i + 1);
      csv := csv + CsvLine(r, rowData);
      i := i + 1;
    }
    assert recs[..i + 1] == recs;
    file := Some(CsvFile("Pivot_" + rowKey + "_vs_" + colKey + ".csv", csv));
  }

  /** The text is the concatenation of its lines, and the export has one line more than
      there are row labels. */
  lemma {:induction false} LinesSplit(recs: seq<(string, seq<string>)>, k: nat)
    requires k <= |recs|
    ensures Lines(recs) == Lines(recs[..k]) + Lines(recs[k..])
    decreases |recs|
  {
    if k < |recs| {
      var init := recs[..|recs| - 1];
      LinesSplit(init, k);
      assert init[..k] == recs[..k];
      assert recs[k..] == init[k..] + [recs[|recs| - 1]];
      assert Lines(recs[k..]) == Lines(init[k..]) + CsvLine(recs[|recs| - 1].0, recs[|recs| - 1].1) by {
        assert recs[k..][..|recs[k..]| - 1] == init[k..];
      }
    } else {
      assert recs[..k] == recs;
      assert recs[k..] == [];
    }
  }

  /** Record `i`'s line sits in the text right after the lines of the records before it. */
  lemma LineAt(recs: seq<(string, seq<string>)>, i: nat)
    requires i < |recs|
    ensures OccursAt(Lines(recs), CsvLine(recs[i].0, recs[i].1), |Lines(recs[..i])|)
  {
    LinesSplit(recs, i);
    LinesSplit(recs[i..], 1);
    assert recs[i..][..1] == [recs[i]];
    assert Lines([recs[i]]) == CsvLine(recs[i].0, recs[i].1) by {
      assert [recs[i]][..0] == [];
    }
    var pre := Lines(recs[..i]);
    var line := CsvLine(recs[i].0, recs[i].1);
    assert Lines(recs) == pre + line + Lines(recs[i..][1..]);
    assert Lines(recs)[|pre|..|pre| + |line|] == line;
  }

  /** The export starts with the header line, and the line of the `i`-th row label, holding its
      label and one rendered cell per column label, follows the lines before it. */
  lemma CsvLayout(rowKey: string, colKey: string, rowLabels: seq<string>, colLabels: seq<string>,
                  matrix: map<string, map<string, real>>, show: real -> string, i: nat)
    requires i < |rowLabels|
    ensures var recs := CsvRecords(rowKey, colKey, rowLabels, colLabels, matrix, show);
      && StartsWith(Lines(recs), CsvLine(rowKey + " \\ " + colKey, colLabels))
      && OccursAt(Lines(recs), CsvLine(rowLabels[i], CsvFields(matrix, rowLabels[i], colLabels, show)), |Lines(recs[..i + 1])|)
  {
    var recs := CsvRecords(rowKey, colKey, rowLabels, colLabels, matrix, show);
    LineAt(recs, 0);
    assert recs[..0] == [];
    LineAt(recs, i + 1);
  }

  // ---------------------------------------------------------------- screen state

  /** The configuration state of the pivot screen. */
  class PivotTable {
    var rowKey: string
    var colKey: string
    var valueKey: string
    var aggregation: Aggregation
    var showSuggestions: bool

    constructor()
      ensures rowKey == "" && colKey == "" && valueKey == "" && aggregation == Total && !showSuggestions
    {
      rowKey, colKey, valueKey, aggregation, showSuggestions := "", "", "", Total, false;
    }

    /** What the config-sync effect hands to the parent: the full configuration, when there is
        a listener and all three keys are chosen, and nothing otherwise. */
    function Reported(hasListener: bool): (r: Option<PivotConfig>)
      reads this
    {
      if hasListener && rowKey != "" && colKey != "" && valueKey != "" then
        Some(PivotConfig(rowKey, colKey, valueKey, aggregation))
      else None
    }

    /** `applySuggestion`: takes over all four fields and hides the suggestions; the parent then
        receives exactly the suggestion when it names all three keys. */
    method ApplySuggestion(config: PivotConfig)
      modifies this
      ensures rowKey == config.rowKey && colKey == config.colKey && valueKey == config.valueKey
      ensures aggregation == config.aggregation && !showSuggestions
      ensures Reported(true) == if config.rowKey != "" && config.colKey != "" && config.valueKey != ""
                                then Some(config) else None
      ensures Reported(false) == None
    {
      rowKey := config.rowKey;
      colKey := config.colKey;
      valueKey := config.valueKey;
      aggregation := config.aggregation;
      showSuggestions := false;
    }
  }
}
