/** The output sheet of `generateImageMappedExcel`: a `#` column, the data columns and an
    `Image Preview` column; one sheet row per data row; one embedded image and one anchor per
    row whose match-column value resolves to an image. */
module Emitter {
  import opened Common
  import opened Keys
  import opened ImageIndex
  import opened Matching

  datatype SheetColumn = SheetColumn(header: string, key: string, width: nat)

  datatype SheetRow = SheetRow(cells: Row, height: nat)

  /** An image placed with its top-left corner at 0-based (`col`, `row`), sized `width` x `height`. */
  datatype Anchor = Anchor(imageId: nat, col: nat, row: nat, width: nat, height: nat)

  datatype EmbeddedImage = EmbeddedImage(blob: Blob, extension: string)

  datatype Sheet = Sheet(columns: seq<SheetColumn>, rows: seq<SheetRow>, images: seq<EmbeddedImage>, anchors: seq<Anchor>)

  const ImageSize: nat := 80
  const MatchedHeight: nat := 60
  const PlainHeight: nat := 20

  /** The sheet's columns: `#`, each data column under its caption, then `Image Preview`. */
  function SheetColumns(columns: seq<Column>): (r: seq<SheetColumn>)
    ensures |r| == |columns| + 2
    ensures r[0] == SheetColumn("#", "index", 5)
    ensures forall k :: 0 <= k < |columns| ==> r[k + 1] == SheetColumn(columns[k].caption, columns[k].key, 25)
    ensures r[|r| - 1] == SheetColumn("Image Preview", "image_preview", 15)
  {
    [SheetColumn("#", "index", 5)]
    + seq(|columns|, k requires 0 <= k < |columns| => SheetColumn(columns[k].caption, columns[k].key, 25))
    + [SheetColumn("Image Preview", "image_preview", 15)]
  }

  /** Index of the first `c` in `s`, or `|s|`. */
  function FindChar(s: string, c: char): (r: nat)
    ensures r <= |s|
    ensures forall k :: 0 <= k < r ==> s[k] != c
    ensures r < |s| ==> s[r] == c
  {
    if s == [] || s[0] == c then 0 else 1 + FindChar(s[1..], c)
  }

  /** `mimeType.split('/')[1] || 'png'`: the second `/`-separated field, or `png` when there is
      none or it is empty. */
  function Extension(mimeType: string): (r: string)
    ensures r != []
    ensures forall k :: 0 <= k < |r| ==> r[k] != '/'
  {
    var i := FindChar(mimeType, '/');
    if i == |mimeType| then "png"
    else
      var rest := mimeType[i + 1..];
      var field := rest[..FindChar(rest, '/')];
      if field == "" then "png" else field
  }

  /** The extension of `kind/sub` is `sub` when neither part holds a `/` and `sub` is not empty. */
  lemma ExtensionOfSubtype(kind: string, sub: string)
    requires forall k :: 0 <= k < |kind| ==> kind[k] != '/'
    requires forall k :: 0 <= k < |sub| ==> sub[k] != '/'
    requires sub != []
    ensures Extension(kind + "/" + sub) == sub
  {
    var m := kind + "/" + sub;
    assert FindChar(m, '/') == |kind| by {
      assert m[|kind|] == '/';
      assert forall k :: 0 <= k < |kind| ==> m[k] == kind[k];
    }
    assert m[|kind| + 1..] == sub;
  }

  /** A MIME type without a `/` gives the default extension. */
  lemma ExtensionDefault(mimeType: string)
    requires forall k :: 0 <= k < |mimeType| ==> mimeType[k] != '/'
    ensures Extension(mimeType) == "png"
  {
  }

  /** The values handed to `addRow` for data row `i`: `index` set to `i + 1`, then every field
      of the row, a field named `index` replacing the counter. */
  function RowCells(i: nat, row: Row): Row
  {
    map["index" := Num(i + 1)] + row
  }

  /** Some sheet column has key `k`. */
  predicate HasColumn(cols: seq<SheetColumn>, k: string)
  {
    exists j :: 0 <= j < |cols| && cols[j].key == k
  }

  /** The cells `addRow` writes from `values`: one per sheet column whose key `values` holds with
      a defined value; every other field is dropped. */
  function Written(cols: seq<SheetColumn>, values: Row): (r: Row)
    ensures forall k :: k in r <==> k in values && values[k] != Undefined && HasColumn(cols, k)
    ensures forall k :: k in r ==> r[k] == values[k]
  {
    map k | k in values && values[k] != Undefined && HasColumn(cols, k) :: values[k]
  }

  /** The image a row receives: none for a blank value, otherwise the tiered lookup. */
  function RowImage(idx: MatchIndex, val: string): (r: Option<Blob>)
    ensures val == "" ==> r == None
    ensures val != "" ==> r == Resolve(idx, val)
  {
    if val == "" then None else Resolve(idx, val)
  }

  function RowHeight(idx: MatchIndex, row: Row, matchColumn: string): nat
  {
    if RowImage(idx, CellText(row, matchColumn)).Some? then MatchedHeight else PlainHeight
  }

  /** One sheet row per data row. */
  function Rows(data: seq<Row>, matchColumn: string, idx: MatchIndex): seq<SheetRow>
  {
    seq(|data|, i requires 0 <= i < |data| => SheetRow(RowCells(i, data[i]), RowHeight(idx, data[i], matchColumn)))
  }

  /** The images embedded for `data`, in row order. */
  function Images(data: seq<Row>, matchColumn: string, idx: MatchIndex): seq<EmbeddedImage>
  {
    if data == [] then []
    else
      var prev := Images(data[..|data| - 1], matchColumn, idx);
      match RowImage(idx, CellText(data[|data| - 1], matchColumn))
      case None => prev
      case Some(blob) => prev + [EmbeddedImage(blob, Extension(blob.mimeType))]
  }

  /** The anchors placed for `data` in column `imageCol`, in row order; the `k`-th anchor shows
      the `k`-th embedded image. */
  function Anchors(data: seq<Row>, matchColumn: string, idx: MatchIndex, imageCol: nat): seq<Anchor>
  {
    if data == [] then []
    else
      var n := |data| - 1;
      var prev := Anchors(data[..n], matchColumn, idx, imageCol);
      match RowImage(idx, CellText(data[n], matchColumn))
      case None => prev
      case Some(_) => prev + [Anchor(|prev|, imageCol, n + 1, ImageSize, ImageSize)]
  }

  /** The sheet laid out for `data`. */
  function Layout(data: seq<Row>, columns: seq<Column>, matchColumn: string, idx: MatchIndex): Sheet
  {
    Sheet(SheetColumns(columns), Rows(data, matchColumn, idx), Images(data, matchColumn, idx),
          Anchors(data, matchColumn, idx, |columns| + 1))
  }

  lemma LayoutStep(data: seq<Row>, matchColumn: string, idx: MatchIndex, imageCol: nat, i: nat)
    requires i < |data|
    ensures Rows(data[..i + 1], matchColumn, idx)
      == Rows(data[..i], matchColumn, idx) + [SheetRow(RowCells(i, data[i]), RowHeight(idx, data[i], matchColumn))]
    ensures var prev := Images(data[..i], matchColumn, idx);
      Images(data[..i + 1], matchColumn, idx) ==
        match RowImage(idx, CellText(data[i], matchColumn))
        case None => prev
        case Some(blob) => prev + [EmbeddedImage(blob, Extension(blob.mimeType))]
    ensures var prev := Anchors(data[..i], matchColumn, idx, imageCol);
      Anchors(data[..i + 1], matchColumn, idx, imageCol) ==
        match RowImage(idx, CellText(data[i], matchColumn))
        case None => prev
        case Some(_) => prev + [Anchor(|prev|, imageCol, i + 1, ImageSize, ImageSize)]
  {
    assert data[..i + 1][..i] == data[..i];
  }

  /** The export loop's lookup of one row's value: nothing for a blank value, else the exact,
      the normalized and the loose tier in turn. */
  method LookUpImage(idx: MatchIndex, val: string) returns (blob: Option<Blob>)
    ensures blob == RowImage(idx, val)
  {
    blob := None;
    if val != "" {
      if val in idx.exact { blob := Some(idx.exact[val]); }
      if blob.None? && Normalize(val) in idx.norm { blob := Some(idx.norm[Normalize(val)]); }
      if blob.None? {
        var f := Loose(val);
        if f != "" && f in idx.fuzzy { blob := Some(idx.fuzzy[f]); }
      }
    }
  }

  /** `generateImageMappedExcel` without the file download: lays out the columns, then for each
      data row appends its cells, looks up its image and, when there is one, embeds it and
      anchors it in the image column of that row. */
  method GenerateImageMappedExcel(data: seq<Row>, columns: seq<Column>, matchColumn: string, idx: MatchIndex)
    returns (sheet: Sheet)
    ensures sheet == Layout(data, columns, matchColumn, idx)
  {
    var excelCols := SheetColumns(columns);
    var rows: seq<SheetRow> := [];
    var images: seq<EmbeddedImage> := [];
    var anchors: seq<Anchor> := [];
    for i := 0 to |data|
      invariant rows == Rows(data[..i], matchColumn, idx)
      invariant images == Images(data[..i], matchColumn, idx)
      invariant anchors == Anchors(data[..i], matchColumn, idx, |excelCols| - 1)
      invariant |images| == |anchors|
    {
      LayoutStep(data, matchColumn, idx, |excelCols| - 1, i);
      var row := data[i];
      var cells := RowCells(i, row);
      var val := CellText(row, matchColumn);
      var blob := LookUpImage(idx, val);
      if blob.Some? {
        var ext := Extension(blob.value.mimeType);
        var imageId := |images|;
        images := images + [EmbeddedImage(blob.value, ext)];
        var imageColIndex := |excelCols| - 1;
        anchors := anchors + [Anchor(imageId, imageColIndex, i + 1, ImageSize, ImageSize)];
        rows := rows + [SheetRow(cells, MatchedHeight)];
      } else {
        rows := rows + [SheetRow(cells, PlainHeight)];
      }
    }
    assert data[..|data|] == data;
    sheet := Sheet(excelCols, rows, images, anchors);
  }

  /** One sheet row per data row, in order, whose values handed to `addRow` are every field of
      the data row unchanged plus its 1-based `index`; 60 high when an image was found and 20
      otherwise. */
  lemma LayoutRows(data: seq<Row>, columns: seq<Column>, matchColumn: string, idx: MatchIndex)
    ensures var s := Layout(data, columns, matchColumn, idx);
      && |s.rows| == |data|
      && forall i :: 0 <= i < |data| ==>
           && s.rows[i].cells.Keys == data[i].Keys + {"index"}
           && (forall k :: k in data[i] ==> s.rows[i].cells[k] == data[i][k])
           && ("index" !in data[i] ==> s.rows[i].cells["index"] == Num(i + 1))
           && (s.rows[i].height == MatchedHeight <==> RowImage(idx, CellText(data[i], matchColumn)).Some?)
  {
  }

  /** The cells actually written for data row `i`: its `index` (unless the row has its own), and
      the row's defined value under each data column; a field whose key names no sheet column,
      such as a generated `id` when no column is called `id`, is not written. */
  lemma LayoutWrittenCells(data: seq<Row>, columns: seq<Column>, matchColumn: string, idx: MatchIndex, i: nat)
    requires i < |data|
    ensures var s := Layout(data, columns, matchColumn, idx);
      var w := Written(s.columns, s.rows[i].cells);
      && ("index" !in data[i] ==> w["index"] == Num(i + 1))
      && (forall j :: 0 <= j < |columns| && columns[j].key in data[i] && data[i][columns[j].key] != Undefined ==>
            w[columns[j].key] == data[i][columns[j].key])
      && (forall k :: k in w ==> k == "index" || k == "image_preview" || exists j :: 0 <= j < |columns| && columns[j].key == k)
  {
    var s := Layout(data, columns, matchColumn, idx);
    var cols := s.columns;
    assert cols[0].key == "index";
    forall j | 0 <= j < |columns|
      ensures HasColumn(cols, columns[j].key)
    {
      assert cols[j + 1].key == columns[j].key;
    }
    forall k | HasColumn(cols, k)
      ensures k == "index" || k == "image_preview" || exists j :: 0 <= j < |columns| && columns[j].key == k
    {
      var m :| 0 <= m < |cols| && cols[m].key == k;
      if 0 < m < |cols| - 1 {
        assert columns[m - 1].key == k;
      }
    }
  }

  /** Anchor `k` points at image `k`, sits in the image column, covers 80 x 80, and its row is a
      data row whose value resolves to that image. */
  predicate AnchorFits(images: seq<EmbeddedImage>, anchors: seq<Anchor>, data: seq<Row>, imageCol: nat,
                       matchColumn: string, idx: MatchIndex, k: int)
    requires 0 <= k < |anchors| == |images|
  {
    var a := anchors[k];
    a.imageId == k && a.col == imageCol && a.width == ImageSize && a.height == ImageSize
    && 1 <= a.row <= |data|
    && RowImage(idx, CellText(data[a.row - 1], matchColumn)) == Some(images[k].blob)
    && images[k].extension == Extension(images[k].blob.mimeType)
  }

  /** There are as many images and anchors as the scorer counts matching rows for the column. */
  lemma {:induction false} LayoutAnchorCount(data: seq<Row>, matchColumn: string, idx: MatchIndex, imageCol: nat)
    ensures |Anchors(data, matchColumn, idx, imageCol)| == |Images(data, matchColumn, idx)| == MatchCount(data, matchColumn, idx)
  {
    if data != [] {
      var n := |data| - 1;
      LayoutAnchorCount(data[..n], matchColumn, idx, imageCol);
      LayoutStep(data, matchColumn, idx, imageCol, n);
      assert data[..n + 1] == data;
      var val := CellText(data[n], matchColumn);
      assert RowMatches(data[n], matchColumn, idx) <==> RowImage(idx, val).Some?;
    }
  }

  /** An anchor that fits a prefix of the rows, images and anchors fits the whole. */
  lemma AnchorFitsExtend(images: seq<EmbeddedImage>, anchors: seq<Anchor>, data: seq<Row>, m: nat, n: nat,
                         imageCol: nat, matchColumn: string, idx: MatchIndex, k: int)
    requires |images| == |anchors| && 0 <= k < m <= |anchors| && n <= |data|
    requires AnchorFits(images[..m], anchors[..m], data[..n], imageCol, matchColumn, idx, k)
    ensures AnchorFits(images, anchors, data, imageCol, matchColumn, idx, k)
  {
    assert images[..m][k] == images[k] && anchors[..m][k] == anchors[k];
    assert data[..n][anchors[k].row - 1] == data[anchors[k].row - 1];
  }

  /** Every anchor fits its image and its row. */
  predicate AnchorsFit(images: seq<EmbeddedImage>, anchors: seq<Anchor>, data: seq<Row>, imageCol: nat,
                       matchColumn: string, idx: MatchIndex)
  {
    |anchors| == |images|
    && forall k :: 0 <= k < |anchors| ==> AnchorFits(images, anchors, data, imageCol, matchColumn, idx, k)
  }

  /** Anchors that fit the rows before the last still fit once the last row is read, and so
      does the anchor the last row adds, if any. */
  lemma AnchorsFitSnoc(pi: seq<EmbeddedImage>, pa: seq<Anchor>, data: seq<Row>, imageCol: nat, matchColumn: string,
                       idx: MatchIndex, images: seq<EmbeddedImage>, anchors: seq<Anchor>)
    requires data != []
    requires AnchorsFit(pi, pa, data[..|data| - 1], imageCol, matchColumn, idx)
    requires match RowImage(idx, CellText(data[|data| - 1], matchColumn))
      case None => images == pi && anchors == pa
      case Some(blob) =>
        images == pi + [EmbeddedImage(blob, Extension(blob.mimeType))]
        && anchors == pa + [Anchor(|pa|, imageCol, |data|, ImageSize, ImageSize)]
    ensures AnchorsFit(images, anchors, data, imageCol, matchColumn, idx)
  {
    var n := |data| - 1;
    assert images[..|pi|] == pi && anchors[..|pa|] == pa;
    forall k | 0 <= k < |pa|
      ensures AnchorFits(images, anchors, data, imageCol, matchColumn, idx, k)
    {
      AnchorFitsExtend(images, anchors, data, |pa|, n, imageCol, matchColumn, idx, k);
    }
  }

  lemma {:induction false} LayoutAnchorsFit(data: seq<Row>, matchColumn: string, idx: MatchIndex, imageCol: nat)
    ensures AnchorsFit(Images(data, matchColumn, idx), Anchors(data, matchColumn, idx, imageCol), data, imageCol,
                       matchColumn, idx)
  {
    LayoutAnchorCount(data, matchColumn, idx, imageCol);
    if data != [] {
      var n := |data| - 1;
      var prefix := data[..n];
      LayoutAnchorsFit(prefix, matchColumn, idx, imageCol);
      LayoutStep(data, matchColumn, idx, imageCol, n);
      assert data[..n + 1] == data;
      AnchorsFitSnoc(Images(prefix, matchColumn, idx), Anchors(prefix, matchColumn, idx, imageCol), data, imageCol,
                     matchColumn, idx, Images(data, matchColumn, idx), Anchors(data, matchColumn, idx, imageCol));
    }
  }

  /** Anchors come in strictly increasing row order. */
  lemma {:induction false} LayoutAnchorsOrdered(data: seq<Row>, matchColumn: string, idx: MatchIndex, imageCol: nat)
    ensures var anchors := Anchors(data, matchColumn, idx, imageCol);
      forall k, l :: 0 <= k < l < |anchors| ==> anchors[k].row < anchors[l].row
  {
    if data != [] {
      var n := |data| - 1;
      var prefix := data[..n];
      LayoutAnchorsOrdered(prefix, matchColumn, idx, imageCol);
      LayoutAnchorsFit(prefix, matchColumn, idx, imageCol);
      LayoutStep(data, matchColumn, idx, imageCol, n);
      assert data[..n + 1] == data;
      var pi := Images(prefix, matchColumn, idx);
      var pa := Anchors(prefix, matchColumn, idx, imageCol);
      forall k | 0 <= k < |pa|
        ensures pa[k].row <= n
      {
        assert AnchorFits(pi, pa, prefix, imageCol, matchColumn, idx, k);
      }
    }
  }

  /** Every row whose value resolves carries an anchor. */
  lemma {:induction false} LayoutAnchorsCover(data: seq<Row>, matchColumn: string, idx: MatchIndex, imageCol: nat)
    ensures var anchors := Anchors(data, matchColumn, idx, imageCol);
      forall i :: 0 <= i < |data| && RowImage(idx, CellText(data[i], matchColumn)).Some? ==>
        exists k :: 0 <= k < |anchors| && anchors[k].row == i + 1
  {
    if data != [] {
      var n := |data| - 1;
      var prefix := data[..n];
      LayoutAnchorsCover(prefix, matchColumn, idx, imageCol);
      LayoutStep(data, matchColumn, idx, imageCol, n);
      assert data[..n + 1] == data;
      var pa := Anchors(prefix, matchColumn, idx, imageCol);
      var anchors := Anchors(data, matchColumn, idx, imageCol);
      forall i | 0 <= i < |data| && RowImage(idx, CellText(data[i], matchColumn)).Some?
        ensures exists k :: 0 <= k < |anchors| && anchors[k].row == i + 1
      {
        if i < n {
          assert prefix[i] == data[i];
          var k :| 0 <= k < |pa| && pa[k].row == i + 1;
          assert anchors[k] == pa[k];
        } else {
          assert anchors[|anchors| - 1].row == n + 1;
        }
      }
    }
  }

  /** With an empty archive the sheet has no images, no anchors, and every row is 20 high. */
  lemma EmptyArchiveLayout(data: seq<Row>, columns: seq<Column>, matchColumn: string)
    ensures var s := Layout(data, columns, matchColumn, EmptyIndex);
      && s.anchors == [] && s.images == [] && |s.rows| == |data|
      && forall i :: 0 <= i < |data| ==> s.rows[i].height == PlainHeight
  {
    LayoutAnchorCount(data, matchColumn, EmptyIndex, |columns| + 1);
    EmptyArchiveNoMatches(data, matchColumn);
  }

  /** The preview's `findMatch` and the export agree on every row: both skip a blank value and
      resolve the same trimmed text through the same tiers. */
  lemma PreviewAgreesWithExport(idx: MatchIndex, row: Row, key: string)
    ensures FindMatch(idx, CellText(row, key)) == RowImage(idx, CellText(row, key))
  {
    TrimIdempotent(if Truthy(Get(row, key)) then Stringify(Get(row, key)) else "");
  }

  /** A table of three rows of which exactly the first two match gets two anchors, on sheet
      rows 1 and 2. */
  lemma FirstTwoOfThreeAnchored(data: seq<Row>, matchColumn: string, idx: MatchIndex, imageCol: nat)
    requires |data| == 3
    requires RowMatches(data[0], matchColumn, idx) && RowMatches(data[1], matchColumn, idx)
    requires !RowMatches(data[2], matchColumn, idx)
    ensures var anchors := Anchors(data, matchColumn, idx, imageCol);
      && |anchors| == 2
      && anchors[0].row == 1 && anchors[1].row == 2
      && anchors[0].col == imageCol && anchors[1].col == imageCol
  {
    assert data[..0] == [];
    assert data[..3] == data;
    forall i | 0 <= i < 3
      ensures RowMatches(data[i], matchColumn, idx) <==> RowImage(idx, CellText(data[i], matchColumn)).Some?
    {
    }
    LayoutStep(data, matchColumn, idx, imageCol, 0);
    LayoutStep(data, matchColumn, idx, imageCol, 1);
    LayoutStep(data, matchColumn, idx, imageCol, 2);
  }

  /** The sample table `A100`, `a-100`, `ZZZ` against an archive holding `A100.png`: the image is
      anchored in column 2 of sheet rows 1 and 2, and `ZZZ` gets none. */
  lemma A100Emission()
    ensures var anchors := Anchors([SkuRow("A100"), SkuRow("a-100"), SkuRow("ZZZ")], "sku", A100Tiers(), 2);
      && |anchors| == 2
      && anchors[0].row == 1 && anchors[1].row == 2
      && anchors[0].col == 2 && anchors[1].col == 2
  {
    A100Row1();
    A100Row2();
    A100Row3();
    FirstTwoOfThreeAnchored([SkuRow("A100"), SkuRow("a-100"), SkuRow("ZZZ")], "sku", A100Tiers(), 2);
  }

  // ------------------------------------------------------------ blank values

  /** The lookup as written in the export loop: no test for a blank value before the tiers. */
  function RowImageAsWritten(idx: MatchIndex, val: string): (r: Option<Blob>)
    ensures val != "" ==> r == RowImage(idx, val)
  {
    Resolve(idx, val)
  }

  // ------------------------------------------------------------ the export as written

  /** The row height as written: the unguarded lookup decides it. */
  function RowHeightAsWritten(idx: MatchIndex, row: Row, matchColumn: string): nat
  {
    if RowImageAsWritten(idx, CellText(row, matchColumn)).Some? then MatchedHeight else PlainHeight
  }

  function RowsAsWritten(data: seq<Row>, matchColumn: string, idx: MatchIndex): seq<SheetRow>
  {
    seq(|data|, i requires 0 <= i < |data| => SheetRow(RowCells(i, data[i]), RowHeightAsWritten(idx, data[i], matchColumn)))
  }

  function ImagesAsWritten(data: seq<Row>, matchColumn: string, idx: MatchIndex): seq<EmbeddedImage>
  {
    if data == [] then []
    else
      var prev := ImagesAsWritten(data[..|data| - 1], matchColumn, idx);
      match RowImageAsWritten(idx, CellText(data[|data| - 1], matchColumn))
      case None => prev
      case Some(blob) => prev + [EmbeddedImage(blob, Extension(blob.mimeType))]
  }

  function AnchorsAsWritten(data: seq<Row>, matchColumn: string, idx: MatchIndex, imageCol: nat): seq<Anchor>
  {
    if data == [] then []
    else
      var n := |data| - 1;
      var prev := AnchorsAsWritten(data[..n], matchColumn, idx, imageCol);
      match RowImageAsWritten(idx, CellText(data[n], matchColumn))
      case None => prev
      case Some(_) => prev + [Anchor(|prev|, imageCol, n + 1, ImageSize, ImageSize)]
  }

  /** The sheet the export loop lays out as written, with no test for a blank match value. */
  function LayoutAsWritten(data: seq<Row>, columns: seq<Column>, matchColumn: string, idx: MatchIndex): Sheet
  {
    Sheet(SheetColumns(columns), RowsAsWritten(data, matchColumn, idx), ImagesAsWritten(data, matchColumn, idx),
          AnchorsAsWritten(data, matchColumn, idx, |columns| + 1))
  }

  /** The two lookups part only on a blank value, and then exactly when the exact or the
      normalized tier holds the empty key. */
  lemma RowImageAsWrittenDiffers(idx: MatchIndex, val: string)
    ensures RowImageAsWritten(idx, val) != RowImage(idx, val) <==> val == "" && ("" in idx.exact || "" in idx.norm)
  {
    EmptyNormalizes();
    assert Loose("") == "";
  }

  /** No image has an empty file name, so the exact tier never holds the empty key. */
  lemma EmptyNeverExactKey(entries: seq<Entry>)
    ensures "" !in IndexOf(entries).exact
  {
    IndexTier(entries, ExactTier, "");
  }

  lemma {:induction false} ImagesAsWrittenAgree(data: seq<Row>, matchColumn: string, idx: MatchIndex)
    requires "" !in idx.exact && "" !in idx.norm
    ensures ImagesAsWritten(data, matchColumn, idx) == Images(data, matchColumn, idx)
  {
    if data != [] {
      ImagesAsWrittenAgree(data[..|data| - 1], matchColumn, idx);
      RowImageAsWrittenDiffers(idx, CellText(data[|data| - 1], matchColumn));
    }
  }

  lemma {:induction false} AnchorsAsWrittenAgree(data: seq<Row>, matchColumn: string, idx: MatchIndex, imageCol: nat)
    requires "" !in idx.exact && "" !in idx.norm
    ensures AnchorsAsWritten(data, matchColumn, idx, imageCol) == Anchors(data, matchColumn, idx, imageCol)
  {
    if data != [] {
      AnchorsAsWrittenAgree(data[..|data| - 1], matchColumn, idx, imageCol);
      RowImageAsWrittenDiffers(idx, CellText(data[|data| - 1], matchColumn));
    }
  }

  /** Unless an image's normalized name is empty, the export as written lays out exactly the
      sheet of the blank-guarded export, so every property proved of `Layout` holds of it. */
  lemma LayoutAsWrittenAgrees(data: seq<Row>, columns: seq<Column>, matchColumn: string, entries: seq<Entry>)
    requires "" !in IndexOf(entries).norm
    ensures LayoutAsWritten(data, columns, matchColumn, IndexOf(entries)) == Layout(data, columns, matchColumn, IndexOf(entries))
  {
    var idx := IndexOf(entries);
    EmptyNeverExactKey(entries);
    ImagesAsWrittenAgree(data, matchColumn, idx);
    AnchorsAsWrittenAgree(data, matchColumn, idx, |columns| + 1);
    forall i | 0 <= i < |data|
      ensures RowHeightAsWritten(idx, data[i], matchColumn) == RowHeight(idx, data[i], matchColumn)
    {
      RowImageAsWrittenDiffers(idx, CellText(data[i], matchColumn));
    }
  }

  /** As written, the preview and the export part exactly on a blank value that the unguarded
      lookup resolves. */
  lemma PreviewAgreesWithExportAsWritten(idx: MatchIndex, row: Row, key: string)
    ensures FindMatch(idx, CellText(row, key)) == RowImageAsWritten(idx, CellText(row, key))
      <==> CellText(row, key) != "" || RowImageAsWritten(idx, "") == None
  {
    PreviewAgreesWithExport(idx, row, key);
  }

  const SpaceBlob: Blob := Blob([0x47, 0x49, 0x46], "image/gif")

  lemma SpacePngTrims()
    ensures Trim(Lower(" .png")) == ".png"
  {
    assert Lower(" .png") == " .png";
    assert TrimStart(" .png") == ".png";
  }

  lemma EmptyNormalizes()
    ensures Normalize("") == ""
  {
    assert Lower("") == "";
  }

  lemma SpacePngBasename()
    ensures Basename(" .png") == " .png"
  {
    BasenameSpec(" .png");
  }

  lemma SpacePngNormalizes()
    ensures Normalize(" .png") == ""
  {
    SpacePngTrims();
    assert ExtensionAt(".png", 0);
    StripExtensionAt(".png", 0);
  }

  lemma SpacePngKeys()
    ensures Basename(" .png") == " .png" && Normalize(" .png") == "" && Normalize("") == ""
  {
    SpacePngBasename();
    SpacePngNormalizes();
    EmptyNormalizes();
  }

  /** As written, an image named ` .png` (its normalized key is empty) is embedded on every
      row whose match value is blank, while the scorer and the preview skip that row. */
  lemma BlankRowGetsImage()
    ensures var idx := IndexOf([Entry(" .png", false, SpaceBlob)]);
      && RowImageAsWritten(idx, CellText(map[], "sku")) == Some(SpaceBlob)
      && RowImage(idx, CellText(map[], "sku")) == None
      && !RowMatches(map[], "sku", idx)
  {
    var e := Entry(" .png", false, SpaceBlob);
    SpacePngKeys();
    assert Lower(" .png") == " .png";
    assert !Contains(" .png", "__MACOSX");
    assert Qualifies(e);
    IndexOfOne(e);
    assert CellText(map[], "sku") == "";
  }

  /** A one-row table whose match value is blank: the export as written anchors an image on
      sheet row 1 exactly when the unguarded lookup resolves the empty value; the blank-guarded
      export never does. */
  lemma BlankRowLayouts(idx: MatchIndex, matchColumn: string)
    ensures var w := LayoutAsWritten([map[]], [], matchColumn, idx);
      && (RowImageAsWritten(idx, "").Some? ==> w.anchors == [Anchor(0, 1, 1, ImageSize, ImageSize)] && w.rows[0].height == MatchedHeight)
      && (RowImageAsWritten(idx, "").None? ==> w.anchors == [] && w.rows[0].height == PlainHeight)
    ensures var c := Layout([map[]], [], matchColumn, idx);
      c.anchors == [] && c.rows[0].height == PlainHeight
  {
    var data: seq<Row> := [map[]];
    assert data[..0] == [];
    assert CellText(data[0], matchColumn) == "";
    assert AnchorsAsWritten(data[..0], matchColumn, idx, 1) == [];
    assert Anchors(data[..0], matchColumn, idx, 1) == [];
  }

  /** At the sheet level: for a one-row table whose match value is blank and the archive
      holding ` .png`, the export as written embeds the image, anchors it on sheet row 1 and
      makes the row 60 high, although no row matches; the blank-guarded export anchors nothing
      and leaves the row 20 high. */
  lemma BlankRowSheetDiffers()
    ensures var idx := IndexOf([Entry(" .png", false, SpaceBlob)]);
      var w := LayoutAsWritten([map[]], [], "sku", idx);
      var c := Layout([map[]], [], "sku", idx);
      && w.anchors == [Anchor(0, 1, 1, ImageSize, ImageSize)] && w.rows[0].height == MatchedHeight
      && c.anchors == [] && c.rows[0].height == PlainHeight
      && MatchCount([map[]], "sku", idx) == 0
  {
    var idx := IndexOf([Entry(" .png", false, SpaceBlob)]);
    BlankRowGetsImage();
    BlankRowLayouts(idx, "sku");
    LayoutAnchorCount([map[]], "sku", idx, 1);
  }
}
