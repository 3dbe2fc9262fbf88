/** `parseExcelFile` after the spreadsheet library has done its work: the column definitions
    taken from the first record, the number-column inference over the first 50 records, the
    coercion of text cells in number columns and the `id` every row receives. The library's
    reading of the workbook and the header detection are inputs. */
module ExcelParser {
  import opened Common

  /** How many leading records the type inference looks at. */
  const InferenceWindow: nat := 50

  /** A value that does not stop its column from being a number column: empty, a number, or a
      string `parseFloat` reads a number from. */
  predicate LooksNumeric(v: Value)
  {
    match v
    case Undefined => true
    case Null => true
    case Bool(_) => false
    case Num(_) => true
    case Str(s) => s == "" || ParseFloat(s).Some?
  }

  /** Column `key` is a number column of `data`: every one of the first 50 records looks numeric there. */
  predicate IsNumberColumn(data: seq<Row>, key: string)
  {
    forall i :: 0 <= i < |data| && i < InferenceWindow ==> LooksNumeric(Get(data[i], key))
  }

  /** The column definitions before inference: one per key of the first record, labelled by the
      key itself when the sheet has a header row and `Column <key>` otherwise. */
  function DetectColumns(hasHeader: bool, firstKeys: seq<string>): (cols: seq<Column>)
    ensures |cols| == |firstKeys|
    ensures forall i :: 0 <= i < |cols| ==>
      && cols[i].key == firstKeys[i] && cols[i].colType == StringType
      && cols[i].caption == (if hasHeader then firstKeys[i] else "Column " + firstKeys[i])
  {
    seq(|firstKeys|, i requires 0 <= i < |firstKeys| =>
      Column(firstKeys[i], if hasHeader then firstKeys[i] else "Column " + firstKeys[i], StringType))
  }

  /** The refined column definitions: each column keeps key and label and becomes `number`
      exactly when the data says so. */
  function InferColumns(cols: seq<Column>, data: seq<Row>): (r: seq<Column>)
    ensures |r| == |cols|
    ensures forall i :: 0 <= i < |r| ==>
      && r[i].key == cols[i].key && r[i].caption == cols[i].caption
      && (r[i].colType == NumberType <==> IsNumberColumn(data, cols[i].key))
      && (r[i].colType != NumberType ==> r[i].colType == StringType)
  {
    seq(|cols|, i requires 0 <= i < |cols| =>
      cols[i].(colType := if IsNumberColumn(data, cols[i].key) then NumberType else StringType))
  }

  predicate IsNumberChar(c: char) { IsDigit(c) || c == '.' || c == '-' }

  /** `replace(/[^0-9.-]/g, '')`. */
  function KeepNumberChars(s: string): string
  {
    if s == [] then []
    else KeepNumberChars(s[..|s| - 1]) + if IsNumberChar(s[|s| - 1]) then [s[|s| - 1]] else []
  }

  /** The kept characters are exactly the digits, dots and minus signs of `s`, in order. */
  lemma {:induction false} KeepNumberCharsSpec(s: string)
    ensures |KeepNumberChars(s)| <= |s|
    ensures forall i :: 0 <= i < |KeepNumberChars(s)| ==> IsNumberChar(KeepNumberChars(s)[i])
    ensures (forall i :: 0 <= i < |s| ==> IsNumberChar(s[i])) ==> KeepNumberChars(s) == s
  {
    if s != [] {
      KeepNumberCharsSpec(s[..|s| - 1]);
      assert s == s[..|s| - 1] + [s[|s| - 1]];
    }
  }

  /** `parseFloat(kept) || 0` for a text cell of a number column. */
  function CoerceText(s: string): int
  {
    match ParseFloat(KeepNumberChars(s))
    case None => 0
    case Some(n) => n
  }

  predicate IsNumberKey(cols: seq<Column>, key: string)
  {
    exists i :: 0 <= i < |cols| && cols[i].key == key && cols[i].colType == NumberType
  }

  /** One record after cleaning: text cells of number columns coerced, every other cell as it
      was, then a fresh `id` when the record's `id` is falsy. */
  function CleanRow(cols: seq<Column>, row: Row, freshId: string): Row
  {
    var coerced := map k | k in row :: if IsNumberKey(cols, k) && row[k].Str? then Num(CoerceText(row[k].s)) else row[k];
    if Truthy(Get(coerced, "id")) then coerced else coerced["id" := Str(freshId)]
  }

  /** What happens to one cell: a text cell of a number column becomes the number read from its
      digits, any other cell keeps its value, no cell appears or disappears but `id`, and the
      record ends up with a truthy `id` (given a non-empty fresh id). */
  lemma CleanRowSpec(cols: seq<Column>, row: Row, freshId: string)
    ensures var r := CleanRow(cols, row, freshId);
      && (r.Keys == row.Keys || r.Keys == row.Keys + {"id"})
      && (forall k :: k in row && k != "id" && IsNumberKey(cols, k) && row[k].Str? ==> r[k] == Num(CoerceText(row[k].s)))
      && (forall k :: k in row && k != "id" && !(IsNumberKey(cols, k) && row[k].Str?) ==> r[k] == row[k])
      && (freshId != "" ==> Truthy(Get(r, "id")))
  {
  }

  /** A truthy text `id` survives cleaning, unless `id` is itself a number column: then it is
      coerced, and replaced by the fresh id when its digits read as 0. */
  lemma CleanRowKeepsId(cols: seq<Column>, row: Row, freshId: string)
    requires "id" in row && row["id"].Str? && row["id"].s != ""
    ensures CleanRow(cols, row, freshId)["id"] == (if IsNumberKey(cols, "id") then
      if CoerceText(row["id"].s) != 0 then Num(CoerceText(row["id"].s)) else Str(freshId)
      else row["id"])
  {
  }

  /** Result of a successful parse. */
  datatype Parsed = Parsed(data: seq<Row>, columns: seq<Column>)

  /** `firstKeys` lists the keys of the first record, each once, as `Object.keys` does. */
  predicate KeysOfFirst(records: seq<Row>, firstKeys: seq<string>)
  {
    records != [] ==>
      && Distinct(firstKeys)
      && (forall k :: k in firstKeys ==> k in records[0])
      && (forall k :: k in records[0] ==> k in firstKeys)
  }

  /** `parseExcelFile`: `rawRowCount` is the number of raw rows the sheet reader returns,
      `hasHeader` the header decision, `records` the records read with or without the header
      row, `firstKeys` the keys of the first record in order, and `freshId(i)` the random id
      drawn for record `i`. */
  function ParseExcel(rawRowCount: nat, hasHeader: bool, records: seq<Row>, firstKeys: seq<string>,
                      freshId: nat -> string): (r: Result<Parsed>)
    requires KeysOfFirst(records, firstKeys)
  {
    if rawRowCount == 0 then Err("Excel file is empty")
    else
      var detected := if |records| > 0 then DetectColumns(hasHeader, firstKeys) else [];
      var cols := InferColumns(detected, records);
      Ok(Parsed(seq(|records|, i requires 0 <= i < |records| => CleanRow(cols, records[i], freshId(i))), cols))
  }

  /** The columns have one key each, all different, and their keys are exactly the keys of `row`. */
  ghost predicate KeyedBy(cols: seq<Column>, row: Row)
  {
    && (forall j, l :: 0 <= j < l < |cols| ==> cols[j].key != cols[l].key)
    && (forall j :: 0 <= j < |cols| ==> cols[j].key in row)
    && (forall k :: k in row ==> exists j :: 0 <= j < |cols| && cols[j].key == k)
  }

  /** Columns taken key by key from the first record's keys are keyed by that record. */
  lemma ColumnsKeyedByFirst(cols: seq<Column>, firstKeys: seq<string>, records: seq<Row>)
    requires records != [] && KeysOfFirst(records, firstKeys)
    requires |cols| == |firstKeys| && forall j :: 0 <= j < |cols| ==> cols[j].key == firstKeys[j]
    ensures KeyedBy(cols, records[0])
  {
    forall k | k in records[0]
      ensures exists j :: 0 <= j < |cols| && cols[j].key == k
    {
      var j :| 0 <= j < |firstKeys| && firstKeys[j] == k;
      assert cols[j].key == k;
    }
  }

  /** The parse fails exactly on an empty sheet; otherwise it keeps every record, in order, each
      cleaned against the inferred columns, and reports one column per key of the first record. */
  lemma ParseExcelSpec(rawRowCount: nat, hasHeader: bool, records: seq<Row>, firstKeys: seq<string>,
                       freshId: nat -> string)
    requires KeysOfFirst(records, firstKeys)
    ensures var r := ParseExcel(rawRowCount, hasHeader, records, firstKeys, freshId);
      && (r.Err? <==> rawRowCount == 0)
      && (r.Ok? ==>
        && |r.value.data| == |records|
        && |r.value.columns| == (if records == [] then 0 else |firstKeys|)
        && (records != [] ==> KeyedBy(r.value.columns, records[0]))
        && (forall i :: 0 <= i < |records| ==> r.value.data[i] == CleanRow(r.value.columns, records[i], freshId(i)))
        && (forall j :: 0 <= j < |r.value.columns| ==>
              r.value.columns[j].key == firstKeys[j]
              && (r.value.columns[j].colType == NumberType <==> IsNumberColumn(records, firstKeys[j]))))
  {
    var r := ParseExcel(rawRowCount, hasHeader, records, firstKeys, freshId);
    if r.Ok? && records != [] {
      ColumnsKeyedByFirst(r.value.columns, firstKeys, records);
    }
  }

  /** Every parsed record carries a truthy `id` when the fresh ids are non-empty. */
  lemma ParsedRowsHaveIds(rawRowCount: nat, hasHeader: bool, records: seq<Row>, firstKeys: seq<string>,
                          freshId: nat -> string)
    requires KeysOfFirst(records, firstKeys)
    requires forall i: nat :: freshId(i) != ""
    requires rawRowCount > 0
    ensures var r := ParseExcel(rawRowCount, hasHeader, records, firstKeys, freshId);
      r.Ok? && forall i :: 0 <= i < |r.value.data| ==> Truthy(Get(r.value.data[i], "id"))
  {
    var r := ParseExcel(rawRowCount, hasHeader, records, firstKeys, freshId);
    forall i | 0 <= i < |r.value.data|
      ensures Truthy(Get(r.value.data[i], "id"))
    {
      CleanRowSpec(r.value.columns, records[i], freshId(i));
    }
  }

  /** After cleaning, a number column other than `id` holds no text at all. */
  lemma CleanedNumberColumnsHoldNoText(rawRowCount: nat, hasHeader: bool, records: seq<Row>,
                                       firstKeys: seq<string>, freshId: nat -> string, j: nat, i: nat)
    requires KeysOfFirst(records, firstKeys)
    requires rawRowCount > 0
    requires var r := ParseExcel(rawRowCount, hasHeader, records, firstKeys, freshId);
      j < |r.value.columns| && r.value.columns[j].colType == NumberType && r.value.columns[j].key != "id"
      && i < |r.value.data|
    ensures var r := ParseExcel(rawRowCount, hasHeader, records, firstKeys, freshId);
      !Get(r.value.data[i], r.value.columns[j].key).Str?
  {
    var r := ParseExcel(rawRowCount, hasHeader, records, firstKeys, freshId);
    var cols := r.value.columns;
    var key := cols[j].key;
    assert IsNumberKey(cols, key);
    CleanRowSpec(cols, records[i], freshId(i));
  }

  /** Cleaning never turns a number column into a text column: inferring the types again on the
      cleaned records finds every number column other than `id` still numeric. */
  lemma CleaningKeepsNumberColumns(rawRowCount: nat, hasHeader: bool, records: seq<Row>,
                                   firstKeys: seq<string>, freshId: nat -> string, j: nat)
    requires KeysOfFirst(records, firstKeys)
    requires rawRowCount > 0
    requires var r := ParseExcel(rawRowCount, hasHeader, records, firstKeys, freshId);
      j < |r.value.columns| && r.value.columns[j].colType == NumberType && r.value.columns[j].key != "id"
    ensures var r := ParseExcel(rawRowCount, hasHeader, records, firstKeys, freshId);
      IsNumberColumn(r.value.data, r.value.columns[j].key)
  {
    var r := ParseExcel(rawRowCount, hasHeader, records, firstKeys, freshId);
    var cols := r.value.columns;
    var key := cols[j].key;
    assert IsNumberColumn(records, key);
    forall i | 0 <= i < |r.value.data| && i < InferenceWindow
      ensures LooksNumeric(Get(r.value.data[i], key))
    {
      assert IsNumberKey(cols, key);
      CleanRowSpec(cols, records[i], freshId(i));
      assert LooksNumeric(Get(records[i], key));
    }
  }

  lemma KeepsSeven()
    ensures KeepNumberChars("$7") == "7"
  {
    assert "$7"[..1] == "$" && "$"[..0] == [];
  }

  lemma ParsesSeven()
    ensures ParseFloat("7") == Some(7)
  {
    assert TrimStart("7") == "7";
    assert "7"[0..] == "7" && "7"[..1] == "7";
    assert DigitRun("7") == 1;
    assert DigitsValue("7") == 7 by { assert "7"[..0] == []; }
  }

  /** `"$7"` in a number column becomes 7: the currency sign is dropped. */
  lemma CoerceCurrency()
    ensures CoerceText("$7") == 7
  {
    KeepsSeven();
    ParsesSeven();
  }

  /** `"n/a"` in a number column becomes 0. */
  lemma CoerceNoDigits()
    ensures CoerceText("n/a") == 0
  {
    assert "n/a"[..2] == "n/" && "n/"[..1] == "n" && "n"[..0] == [];
    assert KeepNumberChars("n/a") == "";
  }
}
